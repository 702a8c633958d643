/**
 * app/rag_pipeline.py: one API request. The PDF at a URL is downloaded,
 * chunked and indexed, then every question is answered in order with a
 * sliding window of the conversation so far.
 */
module RagPipeline {
  import opened Text
  import opened Values
  import opened GenerateEmbeddings
  import opened QueryRetriever
  import opened AnswerGenerator

  // ---------------------------------------------------------------------
  // create_index_from_url
  // ---------------------------------------------------------------------

  /**
   * `requests.get(url, timeout=30)` followed by `raise_for_status()`: either
   * the response body, written to a temporary file, or the text of the
   * `RequestException`.
   */
  datatype Download = Downloaded(file: string) | DownloadFailed(reason: string)

  type Fetcher = string -> Download

  /** The libraries a request goes through: download, PDF preprocessing, vector search and the chat model. */
  datatype Services = Services(fetch: Fetcher, pre: Preprocessing, search: Searcher, llm: ChatModel)

  /** What `create_index_from_url` returns: `(None, None)`, or the in-memory index and the chunk records. */
  datatype Document = NoContent | Document(index: Index, metadata: seq<Dict>)

  function DownloadError(reason: string): PyError {
    PyError(ConnectionError, "Failed to download PDF: " + reason)
  }

  /** `[item["chunk"] for item in chunks]` for records whose chunks are strings. */
  function ChunkTexts(records: seq<Dict>): (texts: seq<string>)
    ensures |texts| == |records|
  {
    seq(|records|, i requires 0 <= i < |records| => Str(Get(records[i], "chunk")))
  }

  /** The document built from the records of one PDF: nothing when it has no chunks. */
  function DocumentOf(records: seq<Dict>): Document {
    if records == [] then NoContent else Document(Index(ChunkTexts(records)), records)
  }

  /** The document a URL yields when the temporary file is passed to `process_single_pdf` as a path. */
  function IndexedDocument(url: string, s: Services): Outcome<Document> {
    match s.fetch(url)
    case DownloadFailed(reason) => Raise(DownloadError(reason))
    case Downloaded(file) => Ok(DocumentOf(RecordsOf(file, s.pre)))
  }

  /**
   * `create_index_from_url` as written: the temporary file's name, a `str`,
   * goes to `process_single_pdf`, whose `.name` lookup then raises for every
   * PDF that has at least one chunk.
   */
  method CreateIndexFromUrlAsWritten(url: string, s: Services) returns (r: Outcome<Document>)
    ensures s.fetch(url).DownloadFailed? ==> r == Raise(DownloadError(s.fetch(url).reason))
    ensures s.fetch(url).Downloaded? ==>
              r == if PdfChunks(s.fetch(url).file, s.pre) == [] then Ok(NoContent) else Raise(NoNameAttribute)
  {
    match s.fetch(url)
    case DownloadFailed(reason) =>
      r := Raise(DownloadError(reason));
    case Downloaded(file) =>
      var chunks := ProcessSinglePdf(PlainStr(file), s.pre);
      r := match chunks
           case Raise(e) => Raise(e)
           case Ok(records) => Ok(DocumentOf(records));
  }

  /** `create_index_from_url` with the temporary file passed as a path, as `process_single_pdf` expects. */
  method CreateIndexFromUrl(url: string, s: Services) returns (r: Outcome<Document>)
    ensures r == IndexedDocument(url, s)
  {
    match s.fetch(url)
    case DownloadFailed(reason) =>
      r := Raise(DownloadError(reason));
    case Downloaded(file) =>
      var chunks := ProcessSinglePdf(PathObject(file), s.pre);
      r := Ok(DocumentOf(chunks.value));
  }

  /**
   * A downloaded PDF with chunks becomes an index whose entry `i` holds the
   * text of chunk `i` and a metadata list whose entry `i` is that chunk's
   * record; a PDF without chunks becomes no document.
   */
  lemma IndexedDocumentAligned(url: string, s: Services)
    requires s.fetch(url).Downloaded?
    ensures var file := s.fetch(url).file;
            match IndexedDocument(url, s)
            case Ok(Document(index, metadata)) =>
              && index.texts == PdfChunks(file, s.pre) != []
              && metadata == RecordsOf(file, s.pre)
              && ChunksAligned(index.texts, metadata)
            case Ok(NoContent) => PdfChunks(file, s.pre) == []
            case Raise(_) => false
  {
    RecordTextsAreChunks(s.fetch(url).file, s.pre);
  }

  /** The chunk texts of a PDF's records are its chunks, and each record holds its own chunk. */
  lemma RecordTextsAreChunks(file: string, pre: Preprocessing)
    ensures ChunkTexts(RecordsOf(file, pre)) == PdfChunks(file, pre)
    ensures ChunksAligned(PdfChunks(file, pre), RecordsOf(file, pre))
  {
    RecordTexts(PdfChunks(file, pre), PathName(file));
  }

  /** The chunk texts of the records built from `chunks` are `chunks`, entry by entry. */
  lemma RecordTexts(chunks: seq<string>, source: string)
    ensures ChunkTexts(Records(chunks, source)) == chunks
    ensures ChunksAligned(chunks, Records(chunks, source))
  {
    var records := Records(chunks, source);
    forall i | 0 <= i < |chunks|
      ensures "chunk" in records[i] && records[i]["chunk"] == PyStr(chunks[i])
      ensures ChunkTexts(records)[i] == chunks[i]
    {
      RecordsAt(chunks, source, i);
    }
  }

  // ---------------------------------------------------------------------
  // The context of one question
  // ---------------------------------------------------------------------

  /** `[item["chunk"] for item in retrieved_chunks]`: a missing key raises KeyError. */
  function ChunkValues(results: seq<Dict>): Outcome<seq<PyValue>> {
    if results == [] then Ok([])
    else if "chunk" !in results[0] then Raise(PyError(KeyError, "'chunk'"))
    else
      match ChunkValues(results[1..])
      case Raise(e) => Raise(e)
      case Ok(rest) => Ok([results[0]["chunk"]] + rest)
  }

  /** `sep.join(values)`: the first item that is not a `str` raises TypeError; `offset` is the index of `values[0]`. */
  function JoinStrings(sep: string, values: seq<PyValue>, offset: nat): Outcome<string> {
    if values == [] then Ok("")
    else if !values[0].PyStr? then
      Raise(PyError(TypeError, "sequence item " + NatToDecimal(offset) + ": expected str instance, "
                               + TypeName(values[0]) + " found"))
    else
      match JoinStrings(sep, values[1..], offset + 1)
      case Raise(e) => Raise(e)
      case Ok(rest) => Ok(if |values| == 1 then values[0].s else values[0].s + sep + rest)
  }

  /** `"\n\n".join([item["chunk"] for item in retrieved_chunks])`. */
  function JoinedChunks(results: seq<Dict>): Outcome<string> {
    match ChunkValues(results)
    case Raise(e) => Raise(e)
    case Ok(values) => JoinStrings("\n\n", values, 0)
  }

  /** Every result carries its chunk as a string. */
  predicate TextChunks(results: seq<Dict>) {
    forall i :: 0 <= i < |results| ==> "chunk" in results[i] && results[i]["chunk"].PyStr?
  }

  /** The joined context is the chunk texts with a blank line between each two, and joining fails only on a missing or non-text chunk. */
  lemma {:induction false} JoinedChunksOfText(results: seq<Dict>)
    ensures JoinedChunks(results).Ok? <==> TextChunks(results)
    ensures TextChunks(results) ==> JoinedChunks(results) == Ok(Join("\n\n", ChunkTexts(results)))
  {
    ChunkValuesOfText(results);
    if TextChunks(results) {
      var values := ChunkValues(results).value;
      JoinStringsOfText(values, 0);
      assert StrValues(values) == ChunkTexts(results);
    } else if ChunkValues(results).Ok? {
      var values := ChunkValues(results).value;
      var i :| 0 <= i < |results| && !("chunk" in results[i] && results[i]["chunk"].PyStr?);
      assert !values[i].PyStr?;
      JoinStringsOfText(values, 0);
    }
  }

  lemma {:induction false} ChunkValuesOfText(results: seq<Dict>)
    ensures ChunkValues(results).Ok? <==> forall i :: 0 <= i < |results| ==> "chunk" in results[i]
    ensures ChunkValues(results).Ok? ==>
              |ChunkValues(results).value| == |results|
              && forall i :: 0 <= i < |results| ==> ChunkValues(results).value[i] == results[i]["chunk"]
  {
    if results != [] {
      ChunkValuesOfText(results[1..]);
      if !forall i :: 0 <= i < |results| ==> "chunk" in results[i] {
        var i :| 0 <= i < |results| && "chunk" !in results[i];
        if i > 0 {
          assert "chunk" !in results[1..][i - 1];
        }
      }
    }
  }

  /** The strings held by values that are all `str`. */
  function StrValues(values: seq<PyValue>): (r: seq<string>)
    ensures |r| == |values|
  {
    seq(|values|, i requires 0 <= i < |values| => Str(values[i]))
  }

  lemma {:induction false} JoinStringsOfText(values: seq<PyValue>, offset: nat)
    ensures JoinStrings("\n\n", values, offset).Ok? <==> forall i :: 0 <= i < |values| ==> values[i].PyStr?
    ensures JoinStrings("\n\n", values, offset).Ok? ==>
              JoinStrings("\n\n", values, offset).value == Join("\n\n", StrValues(values))
  {
    if values != [] {
      JoinStringsOfText(values[1..], offset + 1);
      assert StrValues(values) == [Str(values[0])] + StrValues(values[1..]);
      if !forall i :: 0 <= i < |values| ==> values[i].PyStr? {
        var i :| 0 <= i < |values| && !values[i].PyStr?;
        if i > 0 {
          assert !values[1..][i - 1].PyStr?;
        }
      }
    }
  }

  /** `"\n\n".join(parts)` is empty exactly when there are no parts or a single empty one. */
  lemma JoinEmpty(parts: seq<string>)
    ensures Join("\n\n", parts) == "" <==> parts == [] || parts == [""]
  {
    if |parts| >= 2 {
      var r := Join("\n\n", parts);
      assert r == parts[0] + "\n\n" + Join("\n\n", parts[1..]);
      assert |r| >= 2;
    }
  }

  // ---------------------------------------------------------------------
  // process_api_request
  // ---------------------------------------------------------------------

  /** One entry of the response, `{"question": ..., "answer": ...}`. */
  datatype QA = QA(question: string, answer: string)

  /** Six history entries: the last three questions with their answers. */
  const WindowSize: nat := 6

  const NotFoundAnswer := "I could not find relevant information in the document to answer this question."

  const NoContentError := PyError(ValueError, "Could not extract any content from the document.")

  /** The last `n` items of `s`, or all of them when there are fewer (`s[-n:]` for `n > 0`). */
  function LastN<T>(s: seq<T>, n: nat): (r: seq<T>)
    ensures |r| == Min(n, |s|)
    ensures r == s[|s| - |r|..]
  {
    if |s| <= n then s else s[|s| - n..]
  }

  /** Trimming after every append keeps the same window as trimming once at the end. */
  lemma TrimAppend<T>(s: seq<T>, x: seq<T>, n: nat)
    ensures LastN(LastN(s, n) + x, n) == LastN(s + x, n)
  {
    if |s| > n {
      var u := s + x;
      assert LastN(s, n) + x == u[|s| - n..];
      LastNOfSuffix(u, |s| - n, n);
    }
  }

  /** Dropping items from the front of a sequence does not change its last `n` items while `n` remain. */
  lemma LastNOfSuffix<T>(u: seq<T>, k: nat, n: nat)
    requires k + n <= |u|
    ensures LastN(u[k..], n) == LastN(u, n)
  {
    assert u[k..][|u| - k - n..] == u[|u| - n..];
  }

  /** The two history entries one answered question adds. */
  function Exchange(qa: QA): seq<Message> {
    [Message("user", qa.question), Message("assistant", qa.answer)]
  }

  /** The whole conversation: every question and its answer, oldest first. */
  function Log(answers: seq<QA>): (log: seq<Message>)
    ensures |log| == 2 * |answers|
  {
    if answers == [] then [] else Log(answers[..|answers| - 1]) + Exchange(answers[|answers| - 1])
  }

  /** The history sent after `answers`: the last six entries of the conversation. */
  function Window(answers: seq<QA>): seq<Message> {
    LastN(Log(answers), WindowSize)
  }

  /** The window holds the last `min(2i, 6)` entries of the log of the `i` questions answered, oldest first. */
  lemma WindowOfLog(answers: seq<QA>)
    ensures |Window(answers)| == Min(2 * |answers|, WindowSize) <= WindowSize
    ensures Window(answers) == Log(answers)[2 * |answers| - |Window(answers)|..]
  {
  }

  /** The answer to one question given the history before it: retrieve 3 chunks, join them, and ask the model unless the context is empty. */
  function Reply(question: string, history: seq<Message>, index: Index, metadata: seq<Dict>, s: Services): Outcome<string> {
    match JoinedChunks(Retrieved(question, index, metadata, 3, None, DefaultSearchK, s.search))
    case Raise(e) => Raise(e)
    case Ok(context) => Ok(if context == "" then NotFoundAnswer else s.llm(Request(history, question, context)))
  }

  /** How a question and the history before it become an answer. */
  type Replier = (string, seq<Message>) -> Outcome<string>

  function Answering(index: Index, metadata: seq<Dict>, s: Services): Replier {
    (question: string, history: seq<Message>) => Reply(question, history, index, metadata, s)
  }

  /** The answers to `questions`, each given the window of the answers before it. */
  function Replies(questions: seq<string>, reply: Replier): Outcome<seq<QA>> {
    if questions == [] then Ok([])
    else
      var last := questions[|questions| - 1];
      match Replies(questions[..|questions| - 1], reply)
      case Raise(e) => Raise(e)
      case Ok(prev) =>
        match reply(last, Window(prev))
        case Raise(e) => Raise(e)
        case Ok(answer) => Ok(prev + [QA(last, answer)])
  }

  /** `[{"question": q, "answer": message} for q in questions]`. */
  function FanOut(questions: seq<string>, message: string): seq<QA> {
    seq(|questions|, i requires 0 <= i < |questions| => QA(questions[i], message))
  }

  /** The response once index creation has returned or raised. */
  function Response(created: Outcome<Document>, questions: seq<string>, s: Services): Outcome<seq<QA>> {
    match created
    case Raise(e) => Ok(FanOut(questions, e.message))
    case Ok(NoContent) => Ok(FanOut(questions, NoContentError.message))
    case Ok(Document(index, metadata)) => Replies(questions, Answering(index, metadata, s))
  }

  /** One question: retrieve 3 chunks, join them, and ask the model unless the context is empty. */
  method AnswerOne(question: string, history: seq<Message>, index: Index, metadata: seq<Dict>, s: Services)
    returns (answer: Outcome<string>)
    ensures answer == Reply(question, history, index, metadata, s)
  {
    var retrieved := RetrieveTopKChunks(question, index, metadata, 3, None, DefaultSearchK, s.search);
    var context := JoinedChunks(retrieved);
    if context.Raise? {
      return Raise(context.error);
    }
    if context.value == "" {
      return Ok(NotFoundAnswer);
    }
    var text := GenerateAnswerWithGpt(history, question, context.value, s.llm);
    return Ok(text);
  }

  /** The loop over the questions: answer, record, append to the history and trim it to the window. */
  method AnswerQuestions(questions: seq<string>, index: Index, metadata: seq<Dict>, s: Services)
    returns (result: Outcome<seq<QA>>)
    ensures result == Replies(questions, Answering(index, metadata, s))
  {
    ghost var reply := Answering(index, metadata, s);
    var finalAnswers: seq<QA> := [];
    var chatHistory: seq<Message> := [];
    var i := 0;
    while i < |questions|
      invariant 0 <= i <= |questions|
      invariant Replies(questions[..i], reply) == Ok(finalAnswers)
      invariant chatHistory == Window(finalAnswers)
    {
      var question := questions[i];
      var answer := AnswerOne(question, chatHistory, index, metadata, s);
      assert reply(question, chatHistory) == answer;
      RepliesStep(questions, i, reply);
      if answer.Raise? {
        RepliesErrorStops(questions, i + 1, reply);
        return Raise(answer.error);
      }
      chatHistory := Remember(chatHistory, finalAnswers, QA(question, answer.value));
      finalAnswers := finalAnswers + [QA(question, answer.value)];
      i := i + 1;
    }
    assert questions[..i] == questions;
    return Ok(finalAnswers);
  }

  /** Appending a question and its answer to the history, then keeping its last six entries. */
  method Remember(history: seq<Message>, answers: seq<QA>, qa: QA) returns (next: seq<Message>)
    requires history == Window(answers)
    ensures next == Window(answers + [qa])
  {
    WindowStep(answers, qa);
    next := history + [Message("user", qa.question), Message("assistant", qa.answer)];
    if |next| > WindowSize {
      next := next[|next| - WindowSize..];
    }
  }

  /** One more question extends the answers with its reply, or raises its error. */
  lemma RepliesStep(questions: seq<string>, i: nat, reply: Replier)
    requires i < |questions| && Replies(questions[..i], reply).Ok?
    ensures var prev := Replies(questions[..i], reply).value;
            Replies(questions[..i + 1], reply)
              == match reply(questions[i], Window(prev))
                 case Raise(e) => Raise(e)
                 case Ok(answer) => Ok(prev + [QA(questions[i], answer)])
  {
    assert questions[..i + 1][..i] == questions[..i];
  }

  /** Appending an exchange to the window and trimming gives the window of the longer conversation. */
  lemma WindowStep(answers: seq<QA>, qa: QA)
    ensures Window(answers + [qa]) == LastN(Window(answers) + Exchange(qa), WindowSize)
  {
    assert (answers + [qa])[..|answers|] == answers;
    TrimAppend(Log(answers), Exchange(qa), WindowSize);
  }

  /** Once a question raises, the request raises that error. */
  lemma {:induction false} RepliesErrorStops(questions: seq<string>, n: nat, reply: Replier)
    requires n <= |questions| && Replies(questions[..n], reply).Raise?
    ensures Replies(questions, reply) == Replies(questions[..n], reply)
    decreases |questions| - n
  {
    if n < |questions| {
      assert questions[..n + 1][..n] == questions[..n];
      RepliesErrorStops(questions, n + 1, reply);
    } else {
      assert questions[..n] == questions;
    }
  }

  /** The try/except around index creation, then the question loop. */
  method Respond(created: Outcome<Document>, questions: seq<string>, s: Services) returns (result: Outcome<seq<QA>>)
    ensures result == Response(created, questions, s)
  {
    match created
    case Raise(e) =>
      result := Ok(FanOut(questions, e.message));
    case Ok(NoContent) =>
      result := Ok(FanOut(questions, NoContentError.message));
    case Ok(Document(index, metadata)) =>
      result := AnswerQuestions(questions, index, metadata, s);
  }

  /** `process_api_request` with the path passed as `process_single_pdf` expects. */
  method ProcessApiRequest(docUrl: string, questions: seq<string>, s: Services) returns (result: Outcome<seq<QA>>)
    ensures result == Response(IndexedDocument(docUrl, s), questions, s)
  {
    var created := CreateIndexFromUrl(docUrl, s);
    result := Respond(created, questions, s);
  }

  /** The message every question receives from the request as written. */
  function AsWrittenFailure(docUrl: string, s: Services): string {
    match s.fetch(docUrl)
    case DownloadFailed(reason) => DownloadError(reason).message
    case Downloaded(file) =>
      if PdfChunks(file, s.pre) == [] then NoContentError.message else NoNameAttribute.message
  }

  /**
   * `process_api_request` as written never answers a question: every entry
   * carries the download error, the no-content error, or the AttributeError
   * from `process_single_pdf`.
   */
  method ProcessApiRequestAsWritten(docUrl: string, questions: seq<string>, s: Services)
    returns (result: Outcome<seq<QA>>)
    ensures result == Ok(FanOut(questions, AsWrittenFailure(docUrl, s)))
  {
    var created := CreateIndexFromUrlAsWritten(docUrl, s);
    result := Respond(created, questions, s);
  }

  // ---------------------------------------------------------------------
  // What a request promises
  // ---------------------------------------------------------------------

  /** Unless a question raises, there is one answer per question, in order, each to its own question. */
  lemma {:induction false} RepliesAnswerEachQuestion(questions: seq<string>, reply: Replier)
    ensures Replies(questions, reply).Ok? ==>
              && |Replies(questions, reply).value| == |questions|
              && forall i :: 0 <= i < |questions| ==> Replies(questions, reply).value[i].question == questions[i]
  {
    if questions != [] {
      RepliesAnswerEachQuestion(questions[..|questions| - 1], reply);
    }
  }

  /** Answer `i` is the reply to question `i` given the window of the answers before it. */
  lemma {:induction false} RepliesUseWindow(questions: seq<string>, reply: Replier)
    requires Replies(questions, reply).Ok?
    ensures var answers := Replies(questions, reply).value;
            |answers| == |questions|
            && forall i :: 0 <= i < |questions| ==> reply(questions[i], Window(answers[..i])) == Ok(answers[i].answer)
  {
    RepliesAnswerEachQuestion(questions, reply);
    if questions != [] {
      var init := questions[..|questions| - 1];
      RepliesUseWindow(init, reply);
      var prev := Replies(init, reply).value;
      var answers := Replies(questions, reply).value;
      assert answers[..|prev|] == prev;
      forall i | 0 <= i < |questions|
        ensures reply(questions[i], Window(answers[..i])) == Ok(answers[i].answer)
      {
        if i < |prev| {
          assert answers[..i] == prev[..i];
          assert questions[i] == init[i];
        }
      }
    }
  }

  /** Given a document whose metadata holds every chunk as text, no question raises. */
  lemma {:induction false} RepliesNeverRaise(questions: seq<string>, index: Index, metadata: seq<Dict>, s: Services)
    requires ChunksAligned(index.texts, metadata)
    ensures Replies(questions, Answering(index, metadata, s)).Ok?
  {
    if questions != [] {
      RepliesNeverRaise(questions[..|questions| - 1], index, metadata, s);
      var q := questions[|questions| - 1];
      var results := Retrieved(q, index, metadata, 3, None, DefaultSearchK, s.search);
      RetrievedChunksAreText(q, index, metadata, s);
      JoinedChunksOfText(results);
    }
  }

  lemma RetrievedChunksAreText(question: string, index: Index, metadata: seq<Dict>, s: Services)
    requires ChunksAligned(index.texts, metadata)
    ensures TextChunks(Retrieved(question, index, metadata, 3, None, DefaultSearchK, s.search))
  {
    if Strip(question) != [] {
      RetrievedAreSurvivors(question, index, metadata, 3, None, DefaultSearchK, s.search);
    }
  }

  /**
   * The request answers every question, in order, after a failed download,
   * a PDF without text and a good document alike: no question raises.
   */
  lemma ApiAnswersEveryQuestion(docUrl: string, questions: seq<string>, s: Services)
    ensures var r := Response(IndexedDocument(docUrl, s), questions, s);
            && r.Ok?
            && |r.value| == |questions|
            && (forall i :: 0 <= i < |questions| ==> r.value[i].question == questions[i])
  {
    match IndexedDocument(docUrl, s)
    case Raise(_) =>
    case Ok(NoContent) =>
    case Ok(Document(index, metadata)) =>
      IndexedDocumentAligned(docUrl, s);
      RepliesNeverRaise(questions, index, metadata, s);
      RepliesAnswerEachQuestion(questions, Answering(index, metadata, s));
  }

  /** When the document cannot be built, every question gets `str(e)` of the error, and nothing is retrieved. */
  lemma FailedDocumentFansOut(docUrl: string, questions: seq<string>, s: Services)
    requires !IndexedDocument(docUrl, s).Ok? || IndexedDocument(docUrl, s).value.NoContent?
    ensures var message := if IndexedDocument(docUrl, s).Raise?
                           then IndexedDocument(docUrl, s).error.message
                           else NoContentError.message;
            forall i :: 0 <= i < |questions| ==>
              Response(IndexedDocument(docUrl, s), questions, s).value[i] == QA(questions[i], message)
  {
  }

  /** The fixed answer is given, and the model not asked, exactly when retrieval yields no chunk text. */
  lemma NotFoundExactly(question: string, history: seq<Message>, index: Index, metadata: seq<Dict>, s: Services)
    requires ChunksAligned(index.texts, metadata)
    ensures var results := Retrieved(question, index, metadata, 3, None, DefaultSearchK, s.search);
            var texts := ChunkTexts(results);
            Reply(question, history, index, metadata, s)
              == Ok(if texts == [] || texts == [""] then NotFoundAnswer
                    else s.llm(Request(history, question, Join("\n\n", texts))))
  {
    var results := Retrieved(question, index, metadata, 3, None, DefaultSearchK, s.search);
    RetrievedChunksAreText(question, index, metadata, s);
    JoinedChunksOfText(results);
    JoinEmpty(ChunkTexts(results));
  }

  /**
   * The bug as written: a downloaded PDF whose extraction succeeds and that
   * has at least one chunk gives every question the AttributeError text
   * instead of an answer.
   */
  lemma AsWrittenAnswersNothing(docUrl: string, questions: seq<string>, s: Services)
    requires s.fetch(docUrl).Downloaded? && PdfChunks(s.fetch(docUrl).file, s.pre) != []
    ensures AsWrittenFailure(docUrl, s) == "'str' object has no attribute 'name'"
    ensures IndexedDocument(docUrl, s).Ok? && IndexedDocument(docUrl, s).value.Document?
  {
    IndexedDocumentAligned(docUrl, s);
  }
}
