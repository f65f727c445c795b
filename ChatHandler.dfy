/** The `/chat` handler of the backend: validation, the conversion of the
    client's history into the upstream context, the first upstream call and
    the continuation loop that re-prompts the model until its answer looks
    finished or ten continuations have been spent.

    The upstream (`callGemini`) is an oracle: `upstream[k]` is the reply to
    the k-th call, the first call being call 0. */
module ChatHandler {
  import opened Strings
  import opened Truncation

  datatype Option<T> = None | Some(value: T)

  /** The loop runs while `continued < MaxContinuations`. */
  const MaxContinuations: nat := 10
  /** The first call and at most `MaxContinuations` continuation calls. */
  const MaxCalls: nat := MaxContinuations + 1

  /** One element of the client's `history` array, as the handler sees it:
      `Falsy` for null, undefined and the other falsy values; otherwise the
      `role` and `content` fields, `None` when a field is absent or not a
      string (a truthy non-object has neither). */
  datatype HistoryEntry =
    | Falsy
    | Entry(role: Option<string>, content: Option<string>)

  /** The `history` field: an array, or anything else (absent, null, an
      object, a string, ...). */
  datatype History = NotAnArray | Entries(items: seq<HistoryEntry>)

  /** The request body's fields; `message` is `None` when absent or not a
      string. */
  datatype Request = Request(message: Option<string>, history: History)

  datatype Role = User | Model
  datatype Turn = Turn(role: Role, text: string)

  /** What one upstream call gives back: the normalized success shape (the
      text parts joined, the raw finish reason), an HTTP error with its status
      and message, or an exception (a failed fetch, a body that is not JSON)
      that `callGemini` does not catch. */
  datatype Reply =
    | Ok(chunk: string, reason: Option<string>)
    | HttpErr(status: nat, error: string)
    | Throws

  /** The HTTP response of the handler: a 200 answer, or an error status with
      its message. */
  datatype Response =
    | Answer(text: string, finishReason: string, continued: nat)
    | Failure(status: nat, error: string)

  /** The response together with the context passed on each upstream call,
      in call order. */
  datatype Outcome = Outcome(response: Response, calls: seq<seq<Turn>>)

  const KeyMissing: string := "GEMINI_API_KEY n\U{E3}o configurada no .env"
  const MessageRequired: string := "message \U{E9} obrigat\U{F3}rio (string)"
  const InternalError: string := "Erro interno"
  /** The user turn that asks the model to resume its answer. */
  const ContinuePrompt: string :=
    "Continue exatamente de onde parou, sem repetir nada. "
    + "Finalize a resposta completa. "
    + "Se estiver em um roteiro, complete TODOS os dias e finalize com uma conclus\U{E3}o curta."

  /** The finish reason `callGemini` reports: the candidate's own, or
      "UNKNOWN" when it is missing or empty. */
  function FinishReason(reason: Option<string>): (r: string)
    ensures r != ""
    ensures reason.Some? && reason.value != "" ==> r == reason.value
    ensures reason.None? || reason.value == "" ==> r == "UNKNOWN"
  {
    if reason.None? || reason.value == "" then "UNKNOWN" else reason.value
  }

  predicate KeyConfigured(apiKey: Option<string>) {
    apiKey.Some? && apiKey.value != ""
  }

  predicate MessageValid(message: Option<string>) {
    message.Some? && message.value != ""
  }

  // ---------------------------------------------------------------------
  // History to context

  /** An entry the conversion keeps: truthy, with a string `content`. */
  predicate Usable(h: HistoryEntry) {
    h.Entry? && h.content.Some?
  }

  /** The turn a kept entry becomes: role "assistant" is the model, any other
      role (or none) is the user. */
  function ToTurn(h: HistoryEntry): (t: Turn)
    requires Usable(h)
    ensures t.text == h.content.value
    ensures t.role == Model <==> h.role == Some("assistant")
  {
    Turn(if h.role == Some("assistant") then Model else User, h.content.value)
  }

  /** The turns of the kept entries, in order. */
  function HistoryTurns(items: seq<HistoryEntry>): (ts: seq<Turn>)
    ensures |ts| <= |items|
  {
    if items == [] then []
    else
      var last := items[|items| - 1];
      HistoryTurns(items[..|items| - 1]) + (if Usable(last) then [ToTurn(last)] else [])
  }

  /** A history that is not an array counts as empty. */
  function SafeItems(history: History): (items: seq<HistoryEntry>) {
    if history.Entries? then history.items else []
  }

  /** The conversion keeps the order of the entries and a skipped entry does
      not move the others: converting two pieces of a history and
      concatenating is converting the whole. */
  lemma {:induction false} HistoryTurnsAppend(a: seq<HistoryEntry>, b: seq<HistoryEntry>)
    ensures HistoryTurns(a + b) == HistoryTurns(a) + HistoryTurns(b)
    decreases |b|
  {
    if b == [] {
      assert a + b == a;
    } else {
      var b' := b[..|b| - 1];
      assert (a + b)[..|a + b| - 1] == a + b';
      HistoryTurnsAppend(a, b');
    }
  }

  /** One entry alone becomes one turn if it is kept and none otherwise. */
  lemma {:induction false} HistoryTurnsSingle(h: HistoryEntry)
    ensures HistoryTurns([h]) == if Usable(h) then [ToTurn(h)] else []
  {
    assert [h][..0] == [];
  }

  function UsableCount(items: seq<HistoryEntry>): (n: nat) {
    if items == [] then 0 else (if Usable(items[0]) then 1 else 0) + UsableCount(items[1..])
  }

  /** The context holds one turn per kept entry. */
  lemma {:induction false} HistoryTurnsLength(items: seq<HistoryEntry>)
    ensures |HistoryTurns(items)| == UsableCount(items)
  {
    if items != [] {
      assert items == [items[0]] + items[1..];
      HistoryTurnsAppend([items[0]], items[1..]);
      HistoryTurnsSingle(items[0]);
      HistoryTurnsLength(items[1..]);
    }
  }

  /** The `for` loop over the history followed by the push of the new
      message: the context of the first call. */
  method BuildContents(history: History, message: string) returns (contents: seq<Turn>)
    ensures contents == HistoryTurns(SafeItems(history)) + [Turn(User, message)]
    ensures |contents| == UsableCount(SafeItems(history)) + 1
  {
    var items := SafeItems(history);
    contents := [];
    for i := 0 to |items|
      invariant contents == HistoryTurns(items[..i])
    {
      var h := items[i];
      assert items[..i + 1][..i] == items[..i];
      if !h.Entry? || !h.content.Some? {
        continue;
      }
      if h.role == Some("assistant") {
        contents := contents + [Turn(Model, h.content.value)];
      } else {
        contents := contents + [Turn(User, h.content.value)];
      }
    }
    assert items[..|items|] == items;
    HistoryTurnsLength(items);
    contents := contents + [Turn(User, message)];
  }

  // ---------------------------------------------------------------------
  // The answer buffer

  /** How a continuation chunk joins the buffer: a chunk that is blank after
      trimming leaves it as it is; otherwise the trimmed chunk is appended,
      after a newline unless the buffer already ends with one. */
  function Accumulate(fullText: string, chunk: string): (r: string)
    ensures |r| >= |fullText|
  {
    if |Trim(chunk)| > 0 then
      fullText + (if EndsWith(fullText, "\n") then "" else "\n") + Trim(chunk)
    else fullText
  }

  /** The buffer only grows: what was accumulated stays its prefix; a blank
      chunk changes nothing; any other chunk ends the buffer, trimmed, after a
      newline, and nothing but that newline (when missing) comes between. */
  lemma {:induction false} AccumulateExtends(fullText: string, chunk: string)
    ensures var r := Accumulate(fullText, chunk);
      |fullText| <= |r| && r[..|fullText|] == fullText
      && (Trim(chunk) == [] ==> r == fullText)
      && (Trim(chunk) != [] ==>
            EndsWith(r, Trim(chunk)) && EndsWith(r[..|r| - |Trim(chunk)|], "\n")
            && |r| - |Trim(chunk)| - |fullText| == (if EndsWith(fullText, "\n") then 0 else 1))
  {
    var r := Accumulate(fullText, chunk);
    var c := Trim(chunk);
    if c != [] {
      assert r[|r| - |c|..] == c;
      var head := r[..|r| - |c|];
      if EndsWith(fullText, "\n") {
        assert head == fullText;
      } else {
        assert head == fullText + "\n";
        assert head[|head| - 1..] == "\n";
      }
    }
  }

  /** The buffer after the first `n` replies, all successful: the first
      chunk as it is, then each later chunk accumulated in call order. */
  function Gather(upstream: seq<Reply>, n: nat): (r: string)
    requires 1 <= n <= |upstream|
    requires forall j :: 0 <= j < n ==> upstream[j].Ok?
    ensures |r| >= |upstream[0].chunk|
  {
    if n == 1 then upstream[0].chunk
    else Accumulate(Gather(upstream, n - 1), upstream[n - 1].chunk)
  }

  /** Whether the loop goes on after the first `j + 1` replies: the model did
      not report "STOP", or the buffer looks cut. */
  predicate ShouldContinue(upstream: seq<Reply>, j: nat)
    requires j < |upstream|
    requires forall i :: 0 <= i <= j ==> upstream[i].Ok?
  {
    FinishReason(upstream[j].reason) != "STOP" || LooksCut(Gather(upstream, j + 1))
  }

  // ---------------------------------------------------------------------
  // The contexts sent upstream

  /** The context sent on call `k`: the base context (history and message),
      then for each earlier call its model chunk and the continuation
      prompt. */
  function SentContext(base: seq<Turn>, upstream: seq<Reply>, k: nat): (ctx: seq<Turn>)
    requires k <= |upstream|
    requires forall j :: 0 <= j < k ==> upstream[j].Ok?
  {
    if k == 0 then base
    else SentContext(base, upstream, k - 1) + [Turn(Model, upstream[k - 1].chunk), Turn(User, ContinuePrompt)]
  }

  /** The contexts of calls `0` to `m`. */
  function SentContexts(base: seq<Turn>, upstream: seq<Reply>, m: nat): (cs: seq<seq<Turn>>)
    requires m < |upstream|
    requires forall j :: 0 <= j < m ==> upstream[j].Ok?
    ensures |cs| == m + 1
  {
    if m == 0 then [base] else SentContexts(base, upstream, m - 1) + [SentContext(base, upstream, m)]
  }

  /** Each context extends the one before by exactly two turns, so the
      context is only ever appended to. */
  lemma {:induction false} SentContextGrows(base: seq<Turn>, upstream: seq<Reply>, k: nat, k': nat)
    requires k <= k' <= |upstream|
    requires forall j :: 0 <= j < k' ==> upstream[j].Ok?
    ensures |SentContext(base, upstream, k')| == |base| + 2 * k'
    ensures SentContext(base, upstream, k) == SentContext(base, upstream, k')[..|base| + 2 * k]
    decreases k'
  {
    if k' > 0 {
      SentContextGrows(base, upstream, if k == k' then k - 1 else k, k' - 1);
      if k < k' {
        var prev := SentContext(base, upstream, k' - 1);
        assert SentContext(base, upstream, k')[..|prev|] == prev;
      }
    }
  }

  // ---------------------------------------------------------------------
  // The reference definition of the handler

  /** The loop from the state at the top of one iteration: the context, the
      buffer, the last finish reason, the continuation count and the contexts
      sent so far. */
  function Loop(contents: seq<Turn>, fullText: string, finishReason: string, continued: nat,
                upstream: seq<Reply>, calls: seq<seq<Turn>>): (o: Outcome)
    requires continued <= MaxContinuations < |upstream|
    ensures |o.calls| <= |calls| + MaxContinuations - continued
    decreases MaxContinuations - continued
  {
    if continued == MaxContinuations then Outcome(Answer(Trim(fullText), finishReason, continued), calls)
    else if !(finishReason != "STOP" || LooksCut(fullText)) then
      Outcome(Answer(Trim(fullText), finishReason, continued), calls)
    else
      var continued' := continued + 1;
      var contents' := contents + [Turn(User, ContinuePrompt)];
      var calls' := calls + [contents'];
      match upstream[continued']
      case Throws => Outcome(Failure(500, InternalError), calls')
      case HttpErr(_, _) => Outcome(Answer(Trim(fullText), finishReason, continued'), calls')
      case Ok(chunk, reason) =>
        var fullText' := Accumulate(fullText, chunk);
        var finishReason' := FinishReason(reason);
        if finishReason' == "STOP" && !LooksCut(fullText') then
          Outcome(Answer(Trim(fullText'), finishReason', continued'), calls')
        else
          Loop(contents' + [Turn(Model, chunk)], fullText', finishReason', continued', upstream, calls')
  }

  /** The context of the first call. */
  function FirstContext(req: Request): (ctx: seq<Turn>)
    requires MessageValid(req.message)
  {
    HistoryTurns(SafeItems(req.history)) + [Turn(User, req.message.value)]
  }

  /** The handler: the key check, then the message check, then the first
      call, then the loop; the status of a failed first call is its own, or
      500 when it has none. */
  function Handle(apiKey: Option<string>, req: Request, upstream: seq<Reply>): (o: Outcome)
    requires |upstream| >= MaxCalls
    ensures |o.calls| <= MaxCalls
  {
    if !KeyConfigured(apiKey) then Outcome(Failure(500, KeyMissing), [])
    else if !MessageValid(req.message) then Outcome(Failure(400, MessageRequired), [])
    else
      var contents := FirstContext(req);
      match upstream[0]
      case Throws => Outcome(Failure(500, InternalError), [contents])
      case HttpErr(status, error) =>
        Outcome(Failure(if status == 0 then 500 else status, error), [contents])
      case Ok(chunk, reason) =>
        Loop(contents + [Turn(Model, chunk)], chunk, FinishReason(reason), 0, upstream, [contents])
  }

  /** The handler body as the source runs it: local `contents`, `fullText`,
      `finishReason` and `continued`, a `while` loop with `break` exits, and
      the exception of a call turned into a 500. */
  method HandleChat(apiKey: Option<string>, req: Request, upstream: seq<Reply>)
    returns (response: Response, calls: seq<seq<Turn>>)
    requires |upstream| >= MaxCalls
    ensures Outcome(response, calls) == Handle(apiKey, req, upstream)
  {
    calls := [];
    if !KeyConfigured(apiKey) {
      return Failure(500, KeyMissing), calls;
    }
    if req.message.None? || req.message.value == "" {
      return Failure(400, MessageRequired), calls;
    }
    var contents := BuildContents(req.history, req.message.value);

    var fullText: string := "";
    var finishReason: string := "UNKNOWN";
    var continued: nat := 0;

    calls := calls + [contents];
    var first := upstream[0];
    if first.Throws? {
      return Failure(500, InternalError), calls;
    }
    if first.HttpErr? {
      return Failure(if first.status == 0 then 500 else first.status, first.error), calls;
    }

    fullText := fullText + first.chunk;
    finishReason := FinishReason(first.reason);
    assert fullText == first.chunk;
    assert calls == [FirstContext(req)];
    contents := contents + [Turn(Model, first.chunk)];

    while continued < MaxContinuations
      invariant continued <= MaxContinuations
      invariant Handle(apiKey, req, upstream) == Loop(contents, fullText, finishReason, continued, upstream, calls)
    {
      var shouldContinue := finishReason != "STOP" || LooksCut(fullText);
      if !shouldContinue {
        break;
      }
      continued := continued + 1;
      contents := contents + [Turn(User, ContinuePrompt)];

      calls := calls + [contents];
      var next := upstream[continued];
      if next.Throws? {
        return Failure(500, InternalError), calls;
      }
      if next.HttpErr? {
        break;
      }
      if |Trim(next.chunk)| > 0 {
        fullText := fullText + (if EndsWith(fullText, "\n") then "" else "\n") + Trim(next.chunk);
      }
      finishReason := FinishReason(next.reason);
      contents := contents + [Turn(Model, next.chunk)];
      if finishReason == "STOP" && !LooksCut(fullText) {
        break;
      }
    }
    response := Answer(Trim(fullText), finishReason, continued);
  }

  // ---------------------------------------------------------------------
  // What the handler promises

  /** After each of the first `m` replies, all successful, the loop had to go
      on. */
  predicate Continued(upstream: seq<Reply>, m: nat)
    requires m <= |upstream|
    requires forall j :: 0 <= j < m ==> upstream[j].Ok?
  {
    m == 0 || (Continued(upstream, m - 1) && ShouldContinue(upstream, m - 1))
  }

  lemma {:induction false} ContinuedAt(upstream: seq<Reply>, m: nat, j: nat)
    requires j < m <= |upstream|
    requires forall i :: 0 <= i < m ==> upstream[i].Ok?
    requires Continued(upstream, m)
    ensures ShouldContinue(upstream, j)
  {
    if j < m - 1 {
      ContinuedAt(upstream, m - 1, j);
    }
  }

  /** How the last of `n` replies decides the response: an exception gives
      500, an HTTP error gives the answer gathered so far, a success gives the
      answer gathered with it, and then either the budget is spent or the
      answer no longer needs continuing. */
  predicate Decided(upstream: seq<Reply>, n: nat, r: Response)
    requires 1 <= n <= MaxCalls <= |upstream|
    requires forall j :: 0 <= j < n - 1 ==> upstream[j].Ok?
  {
    match upstream[n - 1]
    case Throws => n >= 2 && r == Failure(500, InternalError)
    case HttpErr(_, _) =>
      n >= 2 && r == Answer(Trim(Gather(upstream, n - 1)), FinishReason(upstream[n - 2].reason), n - 1)
    case Ok(_, _) =>
      r == Answer(Trim(Gather(upstream, n)), FinishReason(upstream[n - 1].reason), n - 1)
      && (n == MaxCalls || !ShouldContinue(upstream, n - 1))
  }

  /** The outcome of the loop once the first call has succeeded, in closed
      form. With n calls made: every reply but the last was a success after
      which the answer still had to be continued, call k was sent the context
      `SentContext(base, upstream, k)`, and the last reply decides the
      response. */
  predicate Settled(base: seq<Turn>, upstream: seq<Reply>, o: Outcome)
    requires |upstream| >= MaxCalls
  {
    var n := |o.calls|;
    1 <= n <= MaxCalls
    && (forall j :: 0 <= j < n - 1 ==> upstream[j].Ok?)
    && Continued(upstream, n - 1)
    && o.calls == SentContexts(base, upstream, n - 1)
    && Decided(upstream, n, o.response)
  }

  /** The loop stops at the top of an iteration. */
  lemma {:induction false} LoopStops(contents: seq<Turn>, fullText: string, finishReason: string,
                                     continued: nat, upstream: seq<Reply>, calls: seq<seq<Turn>>)
    requires continued <= MaxContinuations < |upstream|
    requires continued == MaxContinuations || !(finishReason != "STOP" || LooksCut(fullText))
    ensures Loop(contents, fullText, finishReason, continued, upstream, calls)
      == Outcome(Answer(Trim(fullText), finishReason, continued), calls)
  {
  }

  /** The loop makes one more call. */
  lemma {:induction false} LoopSteps(contents: seq<Turn>, fullText: string, finishReason: string,
                                     continued: nat, upstream: seq<Reply>, calls: seq<seq<Turn>>)
    requires continued < MaxContinuations < |upstream|
    requires finishReason != "STOP" || LooksCut(fullText)
    ensures var c' := continued + 1;
      var contents' := contents + [Turn(User, ContinuePrompt)];
      var calls' := calls + [contents'];
      var o := Loop(contents, fullText, finishReason, continued, upstream, calls);
      match upstream[c']
      case Throws => o == Outcome(Failure(500, InternalError), calls')
      case HttpErr(_, _) => o == Outcome(Answer(Trim(fullText), finishReason, c'), calls')
      case Ok(chunk, reason) =>
        var fullText' := Accumulate(fullText, chunk);
        if FinishReason(reason) == "STOP" && !LooksCut(fullText') then
          o == Outcome(Answer(Trim(fullText'), FinishReason(reason), c'), calls')
        else
          o == Loop(contents' + [Turn(Model, chunk)], fullText', FinishReason(reason), c', upstream, calls')
  {
  }

  /** The state at the top of iteration `continued` when every reply so far
      was a success after which the answer had to be continued. */
  predicate Reached(base: seq<Turn>, upstream: seq<Reply>, contents: seq<Turn>, fullText: string,
                    finishReason: string, continued: nat, calls: seq<seq<Turn>>)
  {
    |upstream| >= MaxCalls && continued <= MaxContinuations
    && (forall j :: 0 <= j <= continued ==> upstream[j].Ok?)
    && Continued(upstream, continued)
    && calls == SentContexts(base, upstream, continued)
    && contents == SentContext(base, upstream, continued) + [Turn(Model, upstream[continued].chunk)]
    && fullText == Gather(upstream, continued + 1)
    && finishReason == FinishReason(upstream[continued].reason)
  }

  lemma {:induction false} StopSettles(base: seq<Turn>, upstream: seq<Reply>, contents: seq<Turn>,
                                       fullText: string, finishReason: string, continued: nat,
                                       calls: seq<seq<Turn>>)
    requires Reached(base, upstream, contents, fullText, finishReason, continued, calls)
    requires continued == MaxContinuations || !ShouldContinue(upstream, continued)
    ensures Settled(base, upstream, Loop(contents, fullText, finishReason, continued, upstream, calls))
  {
    var o := Loop(contents, fullText, finishReason, continued, upstream, calls);
    LoopStops(contents, fullText, finishReason, continued, upstream, calls);
    assert Decided(upstream, continued + 1, o.response);
  }

  /** The next call is made; its context and the contexts sent so far. */
  lemma {:induction false} NextCall(base: seq<Turn>, upstream: seq<Reply>, contents: seq<Turn>,
                                    fullText: string, finishReason: string, continued: nat,
                                    calls: seq<seq<Turn>>)
    requires Reached(base, upstream, contents, fullText, finishReason, continued, calls)
    requires continued < MaxContinuations && ShouldContinue(upstream, continued)
    ensures contents + [Turn(User, ContinuePrompt)] == SentContext(base, upstream, continued + 1)
    ensures calls + [contents + [Turn(User, ContinuePrompt)]] == SentContexts(base, upstream, continued + 1)
    ensures Continued(upstream, continued + 1)
  {
  }

  lemma {:induction false} FailedCallSettles(base: seq<Turn>, upstream: seq<Reply>, contents: seq<Turn>,
                                             fullText: string, finishReason: string, continued: nat,
                                             calls: seq<seq<Turn>>)
    requires Reached(base, upstream, contents, fullText, finishReason, continued, calls)
    requires continued < MaxContinuations && ShouldContinue(upstream, continued)
    requires !upstream[continued + 1].Ok?
    ensures Settled(base, upstream, Loop(contents, fullText, finishReason, continued, upstream, calls))
  {
    var o := Loop(contents, fullText, finishReason, continued, upstream, calls);
    LoopSteps(contents, fullText, finishReason, continued, upstream, calls);
    NextCall(base, upstream, contents, fullText, finishReason, continued, calls);
    assert Decided(upstream, continued + 2, o.response);
  }

  lemma {:induction false} FinalCallSettles(base: seq<Turn>, upstream: seq<Reply>, contents: seq<Turn>,
                                            fullText: string, finishReason: string, continued: nat,
                                            calls: seq<seq<Turn>>)
    requires Reached(base, upstream, contents, fullText, finishReason, continued, calls)
    requires continued < MaxContinuations && ShouldContinue(upstream, continued)
    requires upstream[continued + 1].Ok? && !ShouldContinue(upstream, continued + 1)
    ensures Settled(base, upstream, Loop(contents, fullText, finishReason, continued, upstream, calls))
  {
    var o := Loop(contents, fullText, finishReason, continued, upstream, calls);
    LoopSteps(contents, fullText, finishReason, continued, upstream, calls);
    NextCall(base, upstream, contents, fullText, finishReason, continued, calls);
    assert Decided(upstream, continued + 2, o.response);
  }

  /** From any state the loop can reach, its outcome is settled. */
  lemma {:induction false} LoopSettles(base: seq<Turn>, upstream: seq<Reply>, contents: seq<Turn>,
                                       fullText: string, finishReason: string, continued: nat,
                                       calls: seq<seq<Turn>>)
    requires Reached(base, upstream, contents, fullText, finishReason, continued, calls)
    ensures Settled(base, upstream, Loop(contents, fullText, finishReason, continued, upstream, calls))
    decreases MaxContinuations - continued
  {
    if continued == MaxContinuations || !ShouldContinue(upstream, continued) {
      StopSettles(base, upstream, contents, fullText, finishReason, continued, calls);
    } else if !upstream[continued + 1].Ok? {
      FailedCallSettles(base, upstream, contents, fullText, finishReason, continued, calls);
    } else if !ShouldContinue(upstream, continued + 1) {
      FinalCallSettles(base, upstream, contents, fullText, finishReason, continued, calls);
    } else {
      var chunk := upstream[continued + 1].chunk;
      var contents' := contents + [Turn(User, ContinuePrompt)];
      var calls' := calls + [contents'];
      var fullText' := Accumulate(fullText, chunk);
      LoopSteps(contents, fullText, finishReason, continued, upstream, calls);
      NextCall(base, upstream, contents, fullText, finishReason, continued, calls);
      LoopSettles(base, upstream, contents' + [Turn(Model, chunk)], fullText',
                  FinishReason(upstream[continued + 1].reason), continued + 1, calls');
    }
  }

  /** Once the key and the message are valid and the first call succeeds,
      the handler's outcome is settled over the first context. */
  lemma {:induction false} HandleSettles(apiKey: Option<string>, req: Request, upstream: seq<Reply>)
    requires |upstream| >= MaxCalls
    requires KeyConfigured(apiKey) && MessageValid(req.message) && upstream[0].Ok?
    ensures Settled(FirstContext(req), upstream, Handle(apiKey, req, upstream))
  {
    var base := FirstContext(req);
    assert Reached(base, upstream, base + [Turn(Model, upstream[0].chunk)], upstream[0].chunk,
                   FinishReason(upstream[0].reason), 0, [base]);
    LoopSettles(base, upstream, base + [Turn(Model, upstream[0].chunk)], upstream[0].chunk,
                FinishReason(upstream[0].reason), 0, [base]);
  }

  /** Validation comes before any upstream call: a missing key gives 500
      whatever the message, then a missing, empty or non-string message gives
      400. */
  lemma {:induction false} HandleValidatesFirst(apiKey: Option<string>, req: Request, upstream: seq<Reply>)
    requires |upstream| >= MaxCalls
    ensures !KeyConfigured(apiKey) ==> Handle(apiKey, req, upstream) == Outcome(Failure(500, KeyMissing), [])
    ensures KeyConfigured(apiKey) && !MessageValid(req.message) ==>
      Handle(apiKey, req, upstream) == Outcome(Failure(400, MessageRequired), [])
  {
  }

  /** A first call that fails is the only call: an HTTP error passes on its
      status (500 when it has none) and message, an exception gives 500. */
  lemma {:induction false} HandleFirstCallFails(apiKey: Option<string>, req: Request, upstream: seq<Reply>)
    requires |upstream| >= MaxCalls
    requires KeyConfigured(apiKey) && MessageValid(req.message) && !upstream[0].Ok?
    ensures var o := Handle(apiKey, req, upstream);
      o.calls == [FirstContext(req)]
      && (upstream[0].Throws? ==> o.response == Failure(500, InternalError))
      && (upstream[0].HttpErr? ==>
            o.response == Failure(if upstream[0].status == 0 then 500 else upstream[0].status, upstream[0].error))
  {
  }

  /** What a settled outcome says about the calls and the response: at most
      eleven calls, the first one sent the base context, an answer counts its
      continuation calls, and a failure comes only from an exception on the
      last call. */
  lemma {:induction false} SettledFacts(base: seq<Turn>, upstream: seq<Reply>, o: Outcome)
    requires |upstream| >= MaxCalls
    requires Settled(base, upstream, o)
    ensures 1 <= |o.calls| <= MaxCalls && o.calls[0] == base
    ensures o.response.Answer? ==> |o.calls| == 1 + o.response.continued
    ensures o.response.Failure? ==>
      |o.calls| >= 2 && upstream[|o.calls| - 1].Throws? && o.response == Failure(500, InternalError)
  {
    SentContextsAt(base, upstream, |o.calls| - 1, 0);
  }

  /** The three shapes of the handler's outcome: no call when the request is
      refused, one failed call, or a settled run of calls. */
  lemma {:induction false} HandleShape(apiKey: Option<string>, req: Request, upstream: seq<Reply>)
    requires |upstream| >= MaxCalls
    ensures var o := Handle(apiKey, req, upstream);
      (!(KeyConfigured(apiKey) && MessageValid(req.message)) ==> o.calls == [] && o.response.Failure?)
      && (KeyConfigured(apiKey) && MessageValid(req.message) && !upstream[0].Ok? ==>
            o.calls == [FirstContext(req)] && o.response.Failure?)
      && (KeyConfigured(apiKey) && MessageValid(req.message) && upstream[0].Ok? ==>
            var n := |o.calls|;
            1 <= n <= MaxCalls && o.calls[0] == FirstContext(req)
            && (forall j :: 0 <= j < n - 1 ==> upstream[j].Ok?)
            && o.calls == SentContexts(FirstContext(req), upstream, n - 1)
            && (o.response.Answer? ==> n == 1 + o.response.continued)
            && (o.response.Failure? ==>
                  n >= 2 && upstream[n - 1].Throws? && o.response == Failure(500, InternalError)))
  {
    if KeyConfigured(apiKey) && MessageValid(req.message) && upstream[0].Ok? {
      HandleSettles(apiKey, req, upstream);
      SettledFacts(FirstContext(req), upstream, Handle(apiKey, req, upstream));
    }
  }

  /** Call counting: at most 11 calls; an answer reports the `continued`
      count of its continuation calls, which is at most 10, and the upstream
      was called exactly `1 + continued` times; a valid request makes at
      least one call, and the first call is sent the history and the
      message. */
  lemma {:induction false} HandleCallCount(apiKey: Option<string>, req: Request, upstream: seq<Reply>)
    requires |upstream| >= MaxCalls
    ensures var o := Handle(apiKey, req, upstream);
      |o.calls| <= MaxCalls
      && (o.response.Answer? ==> o.response.continued <= MaxContinuations
                                 && |o.calls| == 1 + o.response.continued)
      && (KeyConfigured(apiKey) && MessageValid(req.message) ==>
            |o.calls| >= 1 && o.calls[0] == FirstContext(req))
  {
    HandleShape(apiKey, req, upstream);
  }

  /** The context is append-only: each call is sent the previous call's
      context followed by the model's chunk and the continuation prompt. */
  lemma {:induction false} HandleContextGrows(apiKey: Option<string>, req: Request, upstream: seq<Reply>, k: nat)
    requires |upstream| >= MaxCalls
    requires 0 < k < |Handle(apiKey, req, upstream).calls|
    ensures var cs := Handle(apiKey, req, upstream).calls;
      k < MaxCalls && upstream[k - 1].Ok?
      && cs[k] == cs[k - 1] + [Turn(Model, upstream[k - 1].chunk), Turn(User, ContinuePrompt)]
  {
    var o := Handle(apiKey, req, upstream);
    HandleShape(apiKey, req, upstream);
    assert KeyConfigured(apiKey) && MessageValid(req.message) && upstream[0].Ok?;
    SentContextsGrow(FirstContext(req), upstream, |o.calls| - 1, k);
  }

  lemma {:induction false} SentContextsGrow(base: seq<Turn>, upstream: seq<Reply>, m: nat, k: nat)
    requires 0 < k <= m < |upstream|
    requires forall j :: 0 <= j < m ==> upstream[j].Ok?
    ensures SentContexts(base, upstream, m)[k]
      == SentContexts(base, upstream, m)[k - 1] + [Turn(Model, upstream[k - 1].chunk), Turn(User, ContinuePrompt)]
  {
    SentContextsAt(base, upstream, m, k);
    SentContextsAt(base, upstream, m, k - 1);
  }

  lemma {:induction false} SentContextsAt(base: seq<Turn>, upstream: seq<Reply>, m: nat, k: nat)
    requires k <= m < |upstream|
    requires forall j :: 0 <= j < m ==> upstream[j].Ok?
    ensures SentContexts(base, upstream, m)[k] == SentContext(base, upstream, k)
  {
    if k < m {
      SentContextsAt(base, upstream, m - 1, k);
    }
  }

  /** The model reports "STOP" on the first call and the answer does not
      look cut: one call, no continuation, the trimmed chunk is the answer. */
  lemma {:induction false} CompleteFirstAnswer(apiKey: Option<string>, req: Request, upstream: seq<Reply>)
    requires |upstream| >= MaxCalls
    requires KeyConfigured(apiKey) && MessageValid(req.message)
    requires upstream[0].Ok? && FinishReason(upstream[0].reason) == "STOP"
    requires !LooksCut(upstream[0].chunk)
    ensures Handle(apiKey, req, upstream) ==
      Outcome(Answer(Trim(upstream[0].chunk), "STOP", 0), [FirstContext(req)])
  {
  }

  /** The model never reports "STOP": the budget is spent, with ten
      continuations and eleven calls, and the answer is all eleven chunks
      gathered. */
  lemma {:induction false} NeverStopping(apiKey: Option<string>, req: Request, upstream: seq<Reply>)
    requires |upstream| >= MaxCalls
    requires KeyConfigured(apiKey) && MessageValid(req.message)
    requires forall j :: 0 <= j < MaxCalls ==> upstream[j].Ok? && FinishReason(upstream[j].reason) != "STOP"
    ensures var o := Handle(apiKey, req, upstream);
      |o.calls| == MaxCalls
      && o.response == Answer(Trim(Gather(upstream, MaxCalls)), FinishReason(upstream[MaxContinuations].reason), MaxContinuations)
  {
    HandleSettles(apiKey, req, upstream);
  }

  /** A continuation call that fails with an HTTP error ends the loop with
      the answer gathered so far, as a success whose `continued` already
      counts the failed call. */
  lemma {:induction false} ContinuationFailureKeepsAnswer(apiKey: Option<string>, req: Request,
                                                          upstream: seq<Reply>, k: nat)
    requires |upstream| >= MaxCalls
    requires KeyConfigured(apiKey) && MessageValid(req.message)
    requires 1 <= k <= MaxContinuations
    requires forall j :: 0 <= j < k ==> upstream[j].Ok?
    requires Continued(upstream, k)
    requires upstream[k].HttpErr?
    ensures |Handle(apiKey, req, upstream).calls| == k + 1
    ensures Handle(apiKey, req, upstream).response ==
      Answer(Trim(Gather(upstream, k)), FinishReason(upstream[k - 1].reason), k)
  {
    var o := Handle(apiKey, req, upstream);
    HandleSettles(apiKey, req, upstream);
    var n := |o.calls|;
    if n < k + 1 {
      ContinuedAt(upstream, k, n - 1);
    }
  }

  /** Any 500 "Erro interno" after the first call comes from an exception,
      on the last call made; and a failure after the first call is always
      that one. */
  lemma {:induction false} ExceptionIsInternalError(apiKey: Option<string>, req: Request, upstream: seq<Reply>)
    requires |upstream| >= MaxCalls
    ensures var o := Handle(apiKey, req, upstream);
      o.response.Failure? && |o.calls| >= 2 ==>
        |o.calls| <= MaxCalls && upstream[|o.calls| - 1].Throws? && o.response == Failure(500, InternalError)
  {
    HandleShape(apiKey, req, upstream);
  }
}
