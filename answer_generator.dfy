/**
 * llm/answer_generator.py: clause numbers in questions, the context block
 * built from retrieved chunks, the chat request sent to the model, and the
 * interactive question loop.
 */
module AnswerGenerator {
  import opened Text
  import opened Values
  import opened ClauseNumbers
  import opened GenerateEmbeddings
  import opened QueryRetriever

  // ---------------------------------------------------------------------
  // `(?:\b[Cc]lause\b|\b[Ss]ection\b)?\s*:?\.?\s*(\d+(?:\.\d+)+)`
  // ---------------------------------------------------------------------

  /** `\b`: exactly one side of position `i` is a word character. */
  predicate WordBoundary(s: string, i: nat) {
    (0 < i <= |s| && IsWordChar(s[i - 1])) != (i < |s| && IsWordChar(s[i]))
  }

  /** `\b<first>rest\b` matches at `i`, with `first` one of two spellings. */
  predicate WordAt(s: string, i: nat, upper: char, lower: char, rest: string) {
    && i + 1 + |rest| <= |s|
    && WordBoundary(s, i)
    && (s[i] == upper || s[i] == lower)
    && s[i + 1..i + 1 + |rest|] == rest
    && WordBoundary(s, i + 1 + |rest|)
  }

  /** The positions after the optional keyword group, in the order tried. */
  function KeywordEnds(s: string, i: nat): seq<nat> {
    (if WordAt(s, i, 'C', 'c', "lause") then [i + 6]
     else if WordAt(s, i, 'S', 's', "ection") then [i + 7]
     else [])
    + [i]
  }

  /** `\s*` from `p`: every shorter run is tried after the longest. */
  function SpacesStage(s: string, p: nat): seq<nat> {
    Countdown(SpaceRunEnd(s, p), p)
  }

  /** `c?` from `p`: taking `c` is tried first. */
  function OptionalCharStage(s: string, c: char, p: nat): seq<nat> {
    if p < |s| && s[p] == c then [p + 1, p] else [p]
  }

  /** Runs `stage` from each position of `ps` in turn: the backtracking order of a sequence of pattern pieces. */
  function Then(ps: seq<nat>, stage: nat -> seq<nat>): seq<nat> {
    if ps == [] then [] else stage(ps[0]) + Then(ps[1..], stage)
  }

  /** A pattern piece that may match nothing and never consumes a digit. */
  ghost predicate StageSkipsNonDigits(s: string, stage: nat -> seq<nat>) {
    forall p: nat :: p <= |s| ==> p in stage(p) && forall q :: q in stage(p) ==> NoDigitsBetween(s, p, q)
  }

  lemma {:induction false} ThenSkipsNonDigits(s: string, i: nat, ps: seq<nat>, stage: nat -> seq<nat>)
    requires StageSkipsNonDigits(s, stage)
    requires forall p :: p in ps ==> NoDigitsBetween(s, i, p)
    ensures forall q :: q in Then(ps, stage) ==> NoDigitsBetween(s, i, q)
    ensures forall p :: p in ps ==> p in Then(ps, stage)
  {
    if ps != [] {
      ThenSkipsNonDigits(s, i, ps[1..], stage);
      assert NoDigitsBetween(s, i, ps[0]);
      assert ps[0] in stage(ps[0]);
      forall q | q in stage(ps[0]) ensures NoDigitsBetween(s, i, q) {
        assert NoDigitsBetween(s, ps[0], q);
      }
      forall p | p in ps ensures p in Then(ps, stage) {
        if p != ps[0] {
          assert p in ps[1..];
        }
      }
    }
  }

  function QueryPatternTries(s: string, i: nat): seq<nat> {
    var afterKeyword := KeywordEnds(s, i);
    var afterSpaces := Then(afterKeyword, (p: nat) => SpacesStage(s, p));
    var afterColon := Then(afterSpaces, (p: nat) => OptionalCharStage(s, ':', p));
    var afterDot := Then(afterColon, (p: nat) => OptionalCharStage(s, '.', p));
    Then(afterDot, (p: nat) => SpacesStage(s, p))
  }

  lemma SpacesStageSound(s: string)
    ensures StageSkipsNonDigits(s, (p: nat) => SpacesStage(s, p))
  {
    forall p: nat | p <= |s| ensures p in SpacesStage(s, p) && forall q :: q in SpacesStage(s, p) ==> NoDigitsBetween(s, p, q) {
      var e := SpaceRunEnd(s, p);
      var r := SpacesStage(s, p);
      assert r[|r| - 1] == p;
      forall q | q in r ensures NoDigitsBetween(s, p, q) {
        forall j | p <= j < q ensures !IsDigit(s[j]) {
          assert IsSpace(s[j]);
        }
      }
    }
  }

  lemma OptionalCharStageSound(s: string, c: char)
    requires !IsDigit(c)
    ensures StageSkipsNonDigits(s, (p: nat) => OptionalCharStage(s, c, p))
  {
    forall p: nat | p <= |s|
      ensures p in OptionalCharStage(s, c, p)
      ensures forall q :: q in OptionalCharStage(s, c, p) ==> NoDigitsBetween(s, p, q)
    {
    }
  }

  lemma KeywordEndsSound(s: string, i: nat)
    requires i <= |s|
    ensures i in KeywordEnds(s, i)
    ensures forall p :: p in KeywordEnds(s, i) ==> NoDigitsBetween(s, i, p)
  {
    if WordAt(s, i, 'C', 'c', "lause") {
      assert forall j :: i + 1 <= j < i + 6 ==> s[j] == "lause"[j - i - 1];
    } else if WordAt(s, i, 'S', 's', "ection") {
      assert forall j :: i + 1 <= j < i + 7 ==> s[j] == "ection"[j - i - 1];
    }
  }

  lemma QueryPatternTriesSound(s: string, i: nat)
    requires i <= |s|
    ensures PrefixSkipsNonDigits(s, i, QueryPatternTries(s, i))
  {
    var spaces := (p: nat) => SpacesStage(s, p);
    var colon := (p: nat) => OptionalCharStage(s, ':', p);
    var dot := (p: nat) => OptionalCharStage(s, '.', p);
    SpacesStageSound(s);
    OptionalCharStageSound(s, ':');
    OptionalCharStageSound(s, '.');
    KeywordEndsSound(s, i);
    var a := KeywordEnds(s, i);
    ThenSkipsNonDigits(s, i, a, spaces);
    var b := Then(a, spaces);
    ThenSkipsNonDigits(s, i, b, colon);
    var c := Then(b, colon);
    ThenSkipsNonDigits(s, i, c, dot);
    var d := Then(c, dot);
    ThenSkipsNonDigits(s, i, d, spaces);
    var tries := Then(d, spaces);
    assert tries == QueryPatternTries(s, i);
    forall t | 0 <= t < |tries| ensures NoDigitsBetween(s, i, tries[t]) {
      assert tries[t] in tries;
    }
  }

  /** `_clause_query_regex.search(query).group(1)`, or None for an empty query. */
  function ExtractClauseFromQuery(query: string): Option<string> {
    if query == [] then None else Search(query, QueryPatternTries)
  }

  /**
   * The question's clause number is its leftmost dotted numeral, whatever
   * keyword, colon or dot precedes it; a question without one gets None.
   */
  lemma QueryClauseIsFirstNumeral(query: string)
    ensures ExtractClauseFromQuery(query) == FirstDottedNumeral(query)
  {
    forall i | 0 <= i <= |query| ensures PrefixSkipsNonDigits(query, i, QueryPatternTries(query, i)) {
      QueryPatternTriesSound(query, i);
    }
    SearchCapturesFirstNumeral(query, QueryPatternTries);
  }

  /** A question without a dot, such as "what does clause 5 say", names no clause. */
  lemma UndottedQueryHasNoClause(query: string)
    requires '.' !in query
    ensures ExtractClauseFromQuery(query) == None
  {
    QueryClauseIsFirstNumeral(query);
    forall j | 0 <= j < |query| ensures !NumeralAt(query, j) {
      var e := DigitRunEnd(query, j);
      if e < |query| {
        assert query[e] in query;
      }
    }
  }

  // ---------------------------------------------------------------------
  // build_context_from_chunks
  // ---------------------------------------------------------------------

  /** The citation line put before each chunk; missing keys read as "unknown", "N/A" and "". */
  function Header(r: Dict): string {
    "[From " + Str(GetOr(r, "source", PyStr("unknown")))
    + " | Page " + Str(GetOr(r, "page", PyStr("N/A")))
    + " | Clause " + Str(GetOr(r, "clause_number", PyStr(""))) + "]\n"
  }

  /** The defaults stand in for missing keys. */
  lemma HeaderOfMissingKeys(r: Dict)
    requires "source" !in r && "page" !in r && "clause_number" !in r
    ensures Header(r) == "[From unknown | Page N/A | Clause ]\n"
  {
    HeaderOf(r, "unknown", "N/A", "");
  }

  /**
   * The defaults stand in only for a missing key: a key present with `None`
   * is shown as "None", as the records built from a PDF show their page.
   */
  lemma HeaderOfNoneValues(r: Dict)
    requires "source" in r && r["source"] == PyNone && "page" in r && r["page"] == PyNone
    requires "clause_number" in r && r["clause_number"] == PyNone
    ensures Header(r) == "[From None | Page None | Clause None]\n"
  {
    HeaderOf(r, "None", "None", "None");
  }

  lemma HeaderOf(r: Dict, src: string, page: string, clause: string)
    requires Str(GetOr(r, "source", PyStr("unknown"))) == src
    requires Str(GetOr(r, "page", PyStr("N/A"))) == page
    requires Str(GetOr(r, "clause_number", PyStr(""))) == clause
    ensures Header(r) == "[From " + src + " | Page " + page + " | Clause " + clause + "]\n"
  {
  }

  /** `header + r.get("chunk", "")` raises unless the chunk is a string. */
  function ChunkText(r: Dict): Outcome<string> {
    match GetOr(r, "chunk", PyStr(""))
    case PyStr(c) => Ok(c)
    case v => Raise(PyError(TypeError, "can only concatenate str (not \"" + TypeName(v) + "\") to str"))
  }

  /** What one result adds to the context: its header, its chunk and a blank line. */
  function Entry(r: Dict): Outcome<string> {
    match ChunkText(r)
    case Raise(e) => Raise(e)
    case Ok(c) => Ok(Header(r) + c + "\n\n")
  }

  /** The context block: each result's entry, in order. */
  function Context(results: seq<Dict>): Outcome<string> {
    if results == [] then Ok("")
    else
      match Context(results[..|results| - 1])
      case Raise(e) => Raise(e)
      case Ok(ctx) =>
        match Entry(results[|results| - 1])
        case Raise(e) => Raise(e)
        case Ok(piece) => Ok(ctx + piece)
  }

  method BuildContextFromChunks(results: seq<Dict>) returns (ctx: Outcome<string>)
    ensures ctx == Context(results)
    ensures results == [] ==> ctx == Ok("")
  {
    var text := "";
    var i := 0;
    while i < |results|
      invariant 0 <= i <= |results|
      invariant Context(results[..i]) == Ok(text)
    {
      assert results[..i + 1][..i] == results[..i];
      match Entry(results[i])
      case Raise(e) =>
        ContextErrorStops(results, i + 1);
        return Raise(e);
      case Ok(piece) =>
        text := text + piece;
      i := i + 1;
    }
    assert results[..i] == results;
    return Ok(text);
  }

  /** Once building the context has raised, later results change nothing. */
  lemma {:induction false} ContextErrorStops(results: seq<Dict>, n: nat)
    requires n <= |results| && Context(results[..n]).Raise?
    ensures Context(results) == Context(results[..n])
    decreases |results| - n
  {
    if n < |results| {
      assert results[..n + 1][..n] == results[..n];
      ContextErrorStops(results, n + 1);
    } else {
      assert results[..n] == results;
    }
  }

  /** Every result whose `chunk` is present is a string. */
  predicate ChunksAreText(results: seq<Dict>) {
    forall i :: 0 <= i < |results| ==> "chunk" in results[i] ==> results[i]["chunk"].PyStr?
  }

  /** Building the context fails exactly when some result's chunk is not a string. */
  lemma {:induction false} ContextFailsOnlyOnNonText(results: seq<Dict>)
    ensures Context(results).Ok? <==> ChunksAreText(results)
  {
    if results != [] {
      var init := results[..|results| - 1];
      ContextFailsOnlyOnNonText(init);
      assert ChunksAreText(results) <==> ChunksAreText(init) && Entry(results[|results| - 1]).Ok? by {
        forall i | 0 <= i < |init| ensures results[i] == init[i] { }
      }
    }
  }

  /** The context of two result lists in a row is the two contexts in a row. */
  lemma {:induction false} ContextConcat(a: seq<Dict>, b: seq<Dict>)
    requires Context(a).Ok? && Context(b).Ok?
    ensures Context(a + b) == Ok(Context(a).value + Context(b).value)
  {
    if b == [] {
      assert a + b == a;
      assert Context(a).value + "" == Context(a).value;
    } else {
      var init, last := b[..|b| - 1], b[|b| - 1];
      assert b == init + [last];
      ContextConcat(a, init);
      ContextConcatSnoc(a, init, last);
      ContextSnoc(init, last);
    }
  }

  lemma ContextConcatSnoc(a: seq<Dict>, init: seq<Dict>, last: Dict)
    requires Context(a).Ok? && Context(init).Ok? && Entry(last).Ok?
    requires Context(a + init) == Ok(Context(a).value + Context(init).value)
    ensures Context(a + (init + [last])) == Ok(Context(a).value + (Context(init).value + Entry(last).value))
  {
    Associative(a, init, [last]);
    ContextSnoc(a + init, last);
    Associative(Context(a).value, Context(init).value, Entry(last).value);
  }

  lemma Associative<T>(x: seq<T>, y: seq<T>, z: seq<T>)
    ensures (x + y) + z == x + (y + z)
  {
  }

  /** Appending one result appends its entry. */
  lemma ContextSnoc(results: seq<Dict>, r: Dict)
    requires Context(results).Ok? && Entry(r).Ok?
    ensures Context(results + [r]) == Ok(Context(results).value + Entry(r).value)
  {
    assert (results + [r])[..|results|] == results;
  }

  /** Each result adds its header, its chunk and a blank line, so nothing retrieved is dropped. */
  lemma ContextOfOne(r: Dict)
    requires ChunkText(r).Ok?
    ensures Context([r]) == Ok(Header(r) + ChunkText(r).value + "\n\n")
  {
    assert [r][..0] == [];
    var piece := Entry(r).value;
    assert "" + piece == piece;
  }

  /** With at least one result the context is not blank, so the model is always shown it. */
  lemma ContextNonBlank(results: seq<Dict>)
    requires results != [] && Context(results).Ok?
    ensures !IsBlank(Context(results).value)
  {
    var last := results[|results| - 1];
    var ctx := Context(results[..|results| - 1]).value;
    var full := Context(results).value;
    assert full == ctx + Entry(last).value;
    assert Entry(last).value[0] == '[';
    assert full[|ctx|] == '[';
  }

  // ---------------------------------------------------------------------
  // generate_answer_with_gpt
  // ---------------------------------------------------------------------

  /** One chat message, `{"role": ..., "content": ...}`. */
  datatype Message = Message(role: string, content: string)

  const SystemPrompt := "You are a helpful assistant that answers based on provided policy documents."

  /** The chat completion request: model name, messages, token limit and temperature. */
  datatype ChatRequest = ChatRequest(model: string, messages: seq<Message>, maxTokens: int, temperature: real)

  /** The model: returns the content of the first choice of a chat completion. */
  type ChatModel = ChatRequest -> string

  /**
   * The messages sent with a question: the system prompt, the conversation
   * so far, the context when it has any non-whitespace, and the question.
   */
  function Messages(history: seq<Message>, query: string, context: string): seq<Message> {
    [Message("system", SystemPrompt)]
    + history
    + (if IsBlank(context) then [] else [Message("system", "CONTEXT:\n" + context)])
    + [Message("user", query)]
  }

  function Request(history: seq<Message>, query: string, context: string): ChatRequest {
    ChatRequest("gpt-4o-mini", Messages(history, query, context), 512, 0.0)
  }

  /** The message list, built by appending as the source does. */
  method BuildMessages(history: seq<Message>, query: string, context: string) returns (messages: seq<Message>)
    ensures messages == Messages(history, query, context)
  {
    messages := [Message("system", SystemPrompt)];
    var i := 0;
    while i < |history|
      invariant 0 <= i <= |history|
      invariant messages == [Message("system", SystemPrompt)] + history[..i]
    {
      messages := messages + [history[i]];
      assert history[..i + 1] == history[..i] + [history[i]];
      i := i + 1;
    }
    assert history[..i] == history;
    if context != [] && Strip(context) != [] {
      messages := messages + [Message("system", "CONTEXT:\n" + context)];
    }
    messages := messages + [Message("user", query)];
  }

  /**
   * The system prompt comes first, the history follows in order, the
   * question comes last, and a context message sits between them only for a
   * non-blank context.
   */
  lemma MessagesShape(history: seq<Message>, query: string, context: string)
    ensures var m := Messages(history, query, context);
            && |m| == |history| + (if IsBlank(context) then 2 else 3)
            && m[0] == Message("system", SystemPrompt)
            && m[1..|history| + 1] == history
            && m[|m| - 1] == Message("user", query)
  {
    var m := Messages(history, query, context);
    var c: seq<Message> := if IsBlank(context) then [] else [Message("system", "CONTEXT:\n" + context)];
    assert m == [Message("system", SystemPrompt)] + history + c + [Message("user", query)];
    assert m[1..|history| + 1] == history;
  }

  /** Exactly one context message is sent when the context has non-whitespace text, and none otherwise. */
  lemma ContextMessageSent(history: seq<Message>, query: string, context: string)
    ensures Message("system", "CONTEXT:\n" + context) in Messages(history, query, context)[|history| + 1..]
        <==> !IsBlank(context)
  {
    var m := Messages(history, query, context);
    var tail := m[|history| + 1..];
    if IsBlank(context) {
      assert tail == [Message("user", query)];
    } else {
      assert tail[0] == Message("system", "CONTEXT:\n" + context);
    }
  }

  method GenerateAnswerWithGpt(history: seq<Message>, query: string, context: string, llm: ChatModel)
    returns (answer: string)
    ensures answer == llm(Request(history, query, context))
  {
    var messages := BuildMessages(history, query, context);
    answer := llm(ChatRequest("gpt-4o-mini", messages, 512, 0.0));
  }

  // ---------------------------------------------------------------------
  // interactive_qa
  // ---------------------------------------------------------------------

  /**
   * `query.lower() in ("exit", "quit")`. ASCII lowering decides this
   * exactly: no other character lowers to one of these letters.
   */
  predicate IsExitCommand(query: string) {
    LowerAscii(query) == "exit" || LowerAscii(query) == "quit"
  }

  /** The loaded index and metadata with the searcher and model the loop uses. */
  datatype Assistant = Assistant(index: Index, metadata: seq<Dict>, search: Searcher, llm: ChatModel)

  /** The context for a question: its top 5 chunks, filtered by the clause number it names. */
  function QuestionContext(query: string, a: Assistant): Outcome<string> {
    Context(Retrieved(query, a.index, a.metadata, 5, ExtractClauseFromQuery(query), DefaultSearchK, a.search))
  }

  /** How the loop ended: on an exit command, when `input()` hit the end of input (EOFError), or on an error. */
  datatype SessionEnd = Quit | EndOfInput | Raised(error: PyError)

  /** One answered question: the history with the question and the model's answer appended. */
  function Turn(history: seq<Message>, query: string, a: Assistant): Outcome<seq<Message>> {
    match QuestionContext(query, a)
    case Raise(e) => Raise(e)
    case Ok(ctx) =>
      Ok(history + [Message("user", query), Message("assistant", a.llm(Request(history, query, ctx)))])
  }

  /** How one question extends the history; the loop uses `Turn` with its assistant. */
  type Responder = (seq<Message>, string) -> Outcome<seq<Message>>

  function Answerer(a: Assistant): Responder {
    (history: seq<Message>, query: string) => Turn(history, query, a)
  }

  /** The history after answering `inputs` from `history` on, and how the loop ended. */
  function Session(inputs: seq<string>, history: seq<Message>, turn: Responder): (seq<Message>, SessionEnd) {
    if inputs == [] then (history, EndOfInput)
    else
      var query := Strip(inputs[0]);
      if query == [] then Session(inputs[1..], history, turn)
      else if IsExitCommand(query) then (history, Quit)
      else
        match turn(history, query)
        case Raise(e) => (history, Raised(e))
        case Ok(next) => Session(inputs[1..], next, turn)
  }

  method InteractiveQa(inputs: seq<string>, a: Assistant) returns (history: seq<Message>, end: SessionEnd)
    ensures (history, end) == Session(inputs, [], Answerer(a))
  {
    history := [];
    var i := 0;
    while i < |inputs|
      invariant 0 <= i <= |inputs|
      invariant Session(inputs[i..], history, Answerer(a)) == Session(inputs, [], Answerer(a))
    {
      var query := Strip(inputs[i]);
      assert inputs[i..][1..] == inputs[i + 1..];
      if query == [] {
        i := i + 1;
        continue;
      }
      if IsExitCommand(query) {
        return history, Quit;
      }
      var next := AnswerQuestion(history, query, a);
      assert Answerer(a)(history, query) == next;
      if next.Raise? {
        return history, Raised(next.error);
      }
      history := next.value;
      i := i + 1;
    }
    assert inputs[i..] == [];
    return history, EndOfInput;
  }

  /** The body of the loop for a question: retrieve, build the context, ask the model, record the exchange. */
  method AnswerQuestion(history: seq<Message>, query: string, a: Assistant) returns (next: Outcome<seq<Message>>)
    ensures next == Turn(history, query, a)
  {
    var clause := ExtractClauseFromQuery(query);
    var results := RetrieveTopKChunks(query, a.index, a.metadata, 5, clause, DefaultSearchK, a.search);
    var context := BuildContextFromChunks(results);
    if context.Raise? {
      return Raise(context.error);
    }
    var answer := GenerateAnswerWithGpt(history, query, context.value, a.llm);
    return Ok(history + [Message("user", query), Message("assistant", answer)]);
  }

  /** The questions the loop answers: the stripped non-blank inputs before the first exit command. */
  function Questions(inputs: seq<string>): seq<string> {
    if inputs == [] then []
    else
      var query := Strip(inputs[0]);
      if query == [] then Questions(inputs[1..])
      else if IsExitCommand(query) then []
      else [query] + Questions(inputs[1..])
  }

  /** Entries `n` and `n + 1` of `h` are question `q` and the answer generated from the `n` entries before it. */
  ghost predicate TurnRecorded(h: seq<Message>, n: nat, q: string, turn: Responder) {
    n + 2 <= |h| && turn(h[..n], q) == Ok(h[..n + 2])
  }

  /** After its first `n` entries, `h` holds exactly the turns for `qs`, one pair of entries each. */
  ghost predicate TurnsRecorded(h: seq<Message>, n: nat, qs: seq<string>, turn: Responder)
    decreases |qs|
  {
    if qs == [] then |h| == n
    else TurnRecorded(h, n, qs[0], turn) && TurnsRecorded(h, n + 2, qs[1..], turn)
  }

  /** A turn appends the question as a user message and the model's answer to it. */
  lemma TurnAppendsQuestionAndAnswer(history: seq<Message>, query: string, a: Assistant)
    requires Turn(history, query, a).Ok?
    ensures var next := Turn(history, query, a).value;
            && |next| == |history| + 2
            && next[..|history|] == history
            && next[|history|] == Message("user", query)
            && QuestionContext(query, a).Ok?
            && next[|history| + 1]
               == Message("assistant", a.llm(Request(history, query, QuestionContext(query, a).value)))
  {
  }

  /** Every successful turn keeps the history and appends two messages to it. */
  ghost predicate Appends(turn: Responder) {
    forall history, query :: turn(history, query).Ok? ==>
      |turn(history, query).value| == |history| + 2 && turn(history, query).value[..|history|] == history
  }

  lemma AnswererAppends(a: Assistant)
    ensures Appends(Answerer(a))
  {
    forall history, query | Answerer(a)(history, query).Ok?
      ensures |Answerer(a)(history, query).value| == |history| + 2
      ensures Answerer(a)(history, query).value[..|history|] == history
    {
      TurnAppendsQuestionAndAnswer(history, query, a);
    }
  }

  /**
   * Unless an error stops it, the loop records every question and its
   * answer, in order and never trimmed, and each answer is generated with
   * the whole conversation before it.
   */
  lemma {:induction false} SessionRecordsEveryTurn(inputs: seq<string>, history: seq<Message>, turn: Responder)
    requires Appends(turn)
    ensures history <= Session(inputs, history, turn).0
    ensures !Session(inputs, history, turn).1.Raised? ==>
              TurnsRecorded(Session(inputs, history, turn).0, |history|, Questions(inputs), turn)
  {
    if inputs != [] {
      var query := Strip(inputs[0]);
      if query == [] {
        SessionRecordsEveryTurn(inputs[1..], history, turn);
      } else if !IsExitCommand(query) && turn(history, query).Ok? {
        var next := turn(history, query).value;
        SessionRecordsEveryTurn(inputs[1..], next, turn);
        SessionAnswers(inputs, history, turn);
        if !Session(inputs, history, turn).1.Raised? {
          TurnsRecordedStep(Session(inputs, history, turn).0, history, next, query, Questions(inputs[1..]), turn);
        }
      }
    }
  }

  /**
   * A whole interactive session: unless retrieval raised, the history holds
   * every question asked before the exit command, each followed by the
   * model's answer to the messages up to it.
   */
  lemma InteractiveQaRecordsEveryTurn(inputs: seq<string>, a: Assistant)
    ensures !Session(inputs, [], Answerer(a)).1.Raised? ==>
              TurnsRecorded(Session(inputs, [], Answerer(a)).0, 0, Questions(inputs), Answerer(a))
  {
    AnswererAppends(a);
    SessionRecordsEveryTurn(inputs, [], Answerer(a));
  }

  /** A recorded turn followed by recorded turns for `rest` records `[query] + rest`. */
  lemma TurnsRecordedStep(h: seq<Message>, history: seq<Message>, next: seq<Message>, query: string,
                          rest: seq<string>, turn: Responder)
    requires turn(history, query) == Ok(next)
    requires |next| == |history| + 2 && next[..|history|] == history && next <= h
    requires TurnsRecorded(h, |next|, rest, turn)
    ensures TurnsRecorded(h, |history|, [query] + rest, turn)
  {
    assert h[..|history| + 2] == next;
    assert h[..|history|] == history;
    assert ([query] + rest)[1..] == rest;
  }

  /** An answered question moves the loop on to the next input with the extended history. */
  lemma SessionAnswers(inputs: seq<string>, history: seq<Message>, turn: Responder)
    requires inputs != [] && Strip(inputs[0]) != [] && !IsExitCommand(Strip(inputs[0]))
    requires turn(history, Strip(inputs[0])).Ok?
    ensures Session(inputs, history, turn) == Session(inputs[1..], turn(history, Strip(inputs[0])).value, turn)
    ensures Questions(inputs) == [Strip(inputs[0])] + Questions(inputs[1..])
  {
  }

  /** A session that ends because the input ran out saw no exit command among its non-blank lines. */
  lemma {:induction false} SessionQuitsOnExit(inputs: seq<string>, history: seq<Message>, turn: Responder)
    ensures Session(inputs, history, turn).1 == EndOfInput ==>
              forall i :: 0 <= i < |inputs| ==> !IsExitCommand(Strip(inputs[i])) || Strip(inputs[i]) == []
  {
    if inputs != [] {
      var query := Strip(inputs[0]);
      if query == [] {
        SessionQuitsOnExit(inputs[1..], history, turn);
      } else if !IsExitCommand(query) && turn(history, query).Ok? {
        SessionQuitsOnExit(inputs[1..], turn(history, query).value, turn);
      }
      if Session(inputs, history, turn).1 == EndOfInput {
        forall i | 0 <= i < |inputs| ensures !IsExitCommand(Strip(inputs[i])) || Strip(inputs[i]) == [] {
          if i > 0 {
            assert inputs[i] == inputs[1..][i - 1];
          }
        }
      }
    }
  }
}
