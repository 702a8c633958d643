/**
 * embeddings/generate_embeddings.py: clause numbers for chunks, the chunk
 * records of one PDF, and the id-aligned index data built from a list of PDFs.
 */
module GenerateEmbeddings {
  import opened Text
  import opened Values
  import opened ClauseNumbers
  import opened PdfProcessing

  const ChunkSize: int := 512
  const ChunkOverlap: int := 64
  const EmbeddingBatchSize: int := 64
  /** How many leading characters are searched first for a heading. */
  const HeadLength: nat := 200

  // ---------------------------------------------------------------------
  // `(?:(?:Clause|Section|SECTION|CLAUSE)\s*)?(\d+(?:\.\d+)+)`, IGNORECASE
  // ---------------------------------------------------------------------

  /** `word` (lower case) matches at `i` when case is ignored. */
  predicate MatchesIgnoringCase(s: string, i: nat, word: string) {
    i + |word| <= |s| && LowerAscii(s[i..i + |word|]) == word
  }

  /** The length of the keyword matched at `i`, or 0 when neither keyword matches. */
  function KeywordLength(s: string, i: nat): (k: nat)
    ensures k == 0 || k == 6 || k == 7
    ensures k > 0 ==> i + k <= |s|
    ensures k == 6 <==> MatchesIgnoringCase(s, i, "clause")
    ensures k == 7 <==> MatchesIgnoringCase(s, i, "section")
  {
    if MatchesIgnoringCase(s, i, "clause") then 6
    else if MatchesIgnoringCase(s, i, "section") then 7
    else 0
  }

  /**
   * The capture positions the pattern tries at start `i`, in backtracking
   * order: after the keyword and every shorter run of its trailing
   * whitespace, and finally with the optional group skipped.
   */
  function ClausePatternTries(s: string, i: nat): seq<nat> {
    var k := KeywordLength(s, i);
    (if k > 0 then Countdown(SpaceRunEnd(s, i + k), i + k) else []) + [i]
  }

  /** `_clause_regex.search(s).group(1)`. */
  function ClauseRegexSearch(s: string): Option<string> {
    Search(s, ClausePatternTries)
  }

  lemma KeywordHasNoDigits(s: string, i: nat)
    requires KeywordLength(s, i) > 0
    ensures NoDigitsBetween(s, i, i + KeywordLength(s, i))
  {
    var k := KeywordLength(s, i);
    var low := LowerAscii(s[i..i + k]);
    forall j | i <= j < i + k ensures !IsDigit(s[j]) {
      assert low[j - i] == AsciiLower(s[j]);
      assert 'a' <= low[j - i] <= 'z';
    }
  }

  lemma ClausePatternTriesSound(s: string, i: nat)
    requires i <= |s|
    ensures PrefixSkipsNonDigits(s, i, ClausePatternTries(s, i))
  {
    var tries := ClausePatternTries(s, i);
    var k := KeywordLength(s, i);
    assert tries[|tries| - 1] == i;
    if k > 0 {
      KeywordHasNoDigits(s, i);
      var e := SpaceRunEnd(s, i + k);
      forall t | 0 <= t < |tries| ensures NoDigitsBetween(s, i, tries[t]) {
        if t < |tries| - 1 {
          assert i + k <= tries[t] <= e;
          forall j | i + k <= j < tries[t] ensures !IsDigit(s[j]) {
            assert IsSpace(s[j]);
          }
        }
      }
    }
  }

  /**
   * The clause pattern captures exactly the leftmost dotted numeral, greedily
   * extended: the optional keyword never changes what is captured.
   */
  lemma ClauseRegexCapturesFirstNumeral(s: string)
    ensures ClauseRegexSearch(s) == FirstDottedNumeral(s)
  {
    forall i | 0 <= i <= |s| ensures PrefixSkipsNonDigits(s, i, ClausePatternTries(s, i)) {
      ClausePatternTriesSound(s, i);
    }
    SearchCapturesFirstNumeral(s, ClausePatternTries);
  }

  // ---------------------------------------------------------------------
  // extract_clause_number_from_text
  // ---------------------------------------------------------------------

  /** The clause number of a chunk: searched in its first 200 characters, then in the whole chunk. */
  function ExtractClauseNumberFromText(text: string): Option<string> {
    if text == [] then None
    else
      match ClauseRegexSearch(text[..Min(HeadLength, |text|)])
      case Some(c) => Some(c)
      case None => ClauseRegexSearch(text)
  }

  /** The extraction, with both regex searches replaced by the first dotted numeral. */
  lemma ClauseNumberFromHeadOrWhole(text: string)
    requires text != []
    ensures ExtractClauseNumberFromText(text)
         == if FirstDottedNumeral(text[..Min(HeadLength, |text|)]).Some?
            then FirstDottedNumeral(text[..Min(HeadLength, |text|)])
            else FirstDottedNumeral(text)
  {
    ClauseRegexCapturesFirstNumeral(text[..Min(HeadLength, |text|)]);
    ClauseRegexCapturesFirstNumeral(text);
  }

  /**
   * A chunk gets a clause number exactly when it contains a dotted numeral;
   * the number is a prefix of the chunk's first numeral, cut short only where
   * that numeral runs past character 200.
   */
  lemma ClauseNumberIsFirstNumeral(text: string)
    ensures ExtractClauseNumberFromText(text).Some? <==> FirstDottedNumeral(text).Some?
    ensures ExtractClauseNumberFromText(text).Some? ==>
              IsDottedNumeral(ExtractClauseNumberFromText(text).value)
              && ExtractClauseNumberFromText(text).value <= FirstDottedNumeral(text).value
  {
    if text != [] {
      var n := Min(HeadLength, |text|);
      ClauseNumberFromHeadOrWhole(text);
      if FirstDottedNumeral(text[..n]).Some? {
        FirstNumeralOfPrefix(text, n);
      }
    }
  }

  /** A chunk of at most 200 characters gets exactly its first dotted numeral. */
  lemma ShortChunkClauseNumber(text: string)
    requires |text| <= HeadLength
    ensures ExtractClauseNumberFromText(text) == FirstDottedNumeral(text)
  {
    if text != [] {
      ClauseNumberFromHeadOrWhole(text);
      assert Min(HeadLength, |text|) == |text|;
      assert text[..|text|] == text;
    }
  }

  /** A numeral that ends before character 200 is found in full. */
  lemma HeadingNumeralFoundInFull(text: string)
    requires FirstNumeralFrom(text, 0).Some?
    requires NumeralEnd(text, FirstNumeralFrom(text, 0).value) < HeadLength
    ensures ExtractClauseNumberFromText(text) == FirstDottedNumeral(text)
  {
    var i := FirstNumeralFrom(text, 0).value;
    var n := Min(HeadLength, |text|);
    if n == |text| {
      ShortChunkClauseNumber(text);
    } else {
      var h := text[..n];
      NumeralFitsPrefix(text, n, i);
      assert FirstNumeralFrom(h, 0).Some?;
      FirstNumeralOfPrefixStarts(text, n);
      FirstDottedNumeralAt(text);
      FirstDottedNumeralAt(h);
      ClauseNumberFromHeadOrWhole(text);
    }
  }

  /** A numeral at `i` that ends before the cut `n` is the same numeral in `s[..n]`. */
  lemma NumeralFitsPrefix(s: string, n: nat, i: nat)
    requires i < n <= |s| && NumeralAt(s, i) && NumeralEnd(s, i) < n
    ensures NumeralAt(s[..n], i)
    ensures s[..n][i..NumeralEnd(s[..n], i)] == s[i..NumeralEnd(s, i)]
  {
    var d := DigitRunEnd(s, i);
    assert d + 1 < n;
    NumeralAtInPrefix(s, n, i);
    DigitRunEndInPrefix(s, n, i);
    GroupsEndFitsPrefix(s, n, d);
  }

  /** When the groups end before the cut, the prefix's groups end at the same place. */
  lemma {:induction false} GroupsEndFitsPrefix(s: string, n: nat, e: nat)
    requires e <= n <= |s| && GroupsEnd(s, e) < n
    ensures GroupsEnd(s[..n], e) == GroupsEnd(s, e)
    decreases |s| - e
  {
    var h := s[..n];
    if GroupAt(s, e) {
      assert h[e] == s[e] && h[e + 1] == s[e + 1];
      var next := DigitRunEnd(s, e + 1);
      assert GroupsEnd(s, e) == GroupsEnd(s, next);
      DigitRunEndInPrefix(s, n, e + 1);
      var hnext := DigitRunEnd(h, e + 1);
      assert GroupsEnd(h, e) == GroupsEnd(h, hnext);
      assert hnext == next;
      GroupsEndFitsPrefix(s, n, next);
    } else {
      assert !GroupAt(h, e);
    }
  }

  // ---------------------------------------------------------------------
  // process_single_pdf
  // ---------------------------------------------------------------------

  /**
   * The argument of `process_single_pdf`: a `pathlib.Path`, or a plain `str`,
   * which has no `.name` attribute.
   */
  datatype PdfPath = PathObject(path: string) | PlainStr(path: string)

  /** Where the last component of `path[..k]` starts: just after its last `/`, or at 0. */
  function NameStart(path: string, k: nat): (e: nat)
    requires k <= |path|
    ensures e <= k
    ensures forall j :: e <= j < k ==> path[j] != '/'
    ensures e == 0 || path[e - 1] == '/'
  {
    if k == 0 then 0 else if path[k - 1] == '/' then k else NameStart(path, k - 1)
  }

  /**
   * `Path(path).name`: `pathlib` drops empty and `.` components, so the name
   * is the last component left, or "" when none is.
   */
  function PathName(path: string): (name: string)
    ensures '/' !in name && name != "."
    decreases |path|
  {
    var e := NameStart(path, |path|);
    var last := path[e..];
    if last == "" || last == "." then (if e == 0 then "" else PathName(path[..e - 1]))
    else
      assert forall j :: 0 <= j < |last| ==> last[j] == path[e + j];
      last
  }

  /**
   * The name of a path that ends in neither `/` nor a `.` component is its
   * last component: the text after the last `/`.
   */
  lemma PathNameIsLastComponent(path: string)
    requires path == [] || path[|path| - 1] != '/'
    requires path != "." && !(|path| >= 2 && path[|path| - 2..] == "/.")
    ensures var name := PathName(path);
      && |name| <= |path| && name == path[|path| - |name|..]
      && (|name| < |path| ==> path[|path| - |name| - 1] == '/')
  {
    var e := NameStart(path, |path|);
    assert PathName(path) == path[e..];
  }

  /** A trailing `/` or `/.` leaves the name unchanged. */
  lemma PathNameIgnoresTrailing(path: string)
    ensures PathName(path + "/") == PathName(path)
    ensures PathName(path + "/.") == PathName(path)
  {
    var p1 := path + "/";
    assert NameStart(p1, |p1|) == |p1|;
    assert p1[..|p1| - 1] == path;
    var p2 := path + "/.";
    assert NameStart(p2, |p2|) == |p2| - 1 by {
      assert p2[|p2| - 1] == '.';
    }
    assert p2[|p2| - 1..] == ".";
    assert p2[..|p2| - 2] == path;
  }

  /** The steps before chunking, which the pipeline delegates to libraries. */
  datatype Preprocessing = Preprocessing(
    extract: string -> string,        // extract_text_from_pdf(path) with PyMuPDF
    normalize: string -> string,      // unicodedata.normalize("NFKC", ...)
    tokenizer: Tokenizer)             // the cl100k_base encoding

  /** The chunks of the PDF stored at `path`: extracted, cleaned, then cut into 512-token windows overlapping by 64. */
  function PdfChunks(path: string, pre: Preprocessing): seq<string> {
    Chunks(pre.tokenizer.encode(CleanPdfText(pre.extract(path), pre.normalize)),
           ChunkSize, ChunkOverlap, pre.tokenizer.decode)
  }

  /** The metadata record of one chunk. */
  function ChunkRecord(chunk: string, source: string): (d: Dict)
    ensures d.Keys == {"chunk", "source", "page", "clause_number"}
    ensures d["chunk"] == PyStr(chunk) && d["source"] == PyStr(source) && d["page"] == PyNone
  {
    map["chunk" := PyStr(chunk), "source" := PyStr(source), "page" := PyNone,
        "clause_number" := OptionalStr(ExtractClauseNumberFromText(chunk))]
  }

  /**
   * A record's clause number is the one extracted from its chunk: set exactly
   * when the chunk holds a dotted numeral, and `None` otherwise.
   */
  lemma ChunkRecordClause(chunk: string, source: string)
    ensures Truthy(ChunkRecord(chunk, source)["clause_number"]) <==> FirstDottedNumeral(chunk).Some?
    ensures ChunkRecord(chunk, source)["clause_number"] == OptionalStr(ExtractClauseNumberFromText(chunk))
  {
    ClauseNumberIsFirstNumeral(chunk);
    var clause := ExtractClauseNumberFromText(chunk);
    assert clause.Some? ==> |clause.value| >= 3;
  }

  /** One record per chunk, in chunk order, all naming the same source. */
  function Records(chunks: seq<string>, source: string): (records: seq<Dict>)
    ensures |records| == |chunks|
  {
    if chunks == [] then []
    else Records(chunks[..|chunks| - 1], source) + [ChunkRecord(chunks[|chunks| - 1], source)]
  }

  /** Record `j` is the record of chunk `j`. */
  lemma {:induction false} RecordsAt(chunks: seq<string>, source: string, j: nat)
    requires j < |chunks|
    ensures Records(chunks, source)[j] == ChunkRecord(chunks[j], source)
  {
    if j < |chunks| - 1 {
      RecordsAt(chunks[..|chunks| - 1], source, j);
    }
  }

  /** The error `pdf_path.name` raises when `pdf_path` is a `str`. */
  const NoNameAttribute := PyError(AttributeError, "'str' object has no attribute 'name'")

  /**
   * The loop of `process_single_pdf`: one record per chunk, in chunk order.
   * Given a plain string the first record's `.name` lookup raises, so only
   * an empty chunk list succeeds.
   */
  method BuildRecords(chunks: seq<string>, pdfPath: PdfPath) returns (out: Outcome<seq<Dict>>)
    ensures pdfPath.PathObject? ==> out == Ok(Records(chunks, PathName(pdfPath.path)))
    ensures pdfPath.PlainStr? ==> out == if chunks == [] then Ok([]) else Raise(NoNameAttribute)
  {
    var records: seq<Dict> := [];
    var i := 0;
    while i < |chunks|
      invariant 0 <= i <= |chunks|
      invariant pdfPath.PlainStr? ==> i == 0 && records == []
      invariant pdfPath.PathObject? ==> records == Records(chunks[..i], PathName(pdfPath.path))
    {
      match pdfPath {
        case PlainStr(_) =>
          return Raise(NoNameAttribute);
        case PathObject(p) =>
          assert chunks[..i + 1][..i] == chunks[..i];
          records := records + [ChunkRecord(chunks[i], PathName(p))];
      }
      i := i + 1;
    }
    assert chunks[..i] == chunks;
    return Ok(records);
  }

  /** `process_single_pdf`: extract, clean, chunk into 512-token windows overlapping by 64, then build the records. */
  method ProcessSinglePdf(pdfPath: PdfPath, pre: Preprocessing) returns (out: Outcome<seq<Dict>>)
    ensures pdfPath.PathObject? ==> out == Ok(RecordsOf(pdfPath.path, pre))
    ensures pdfPath.PlainStr? ==>
              out == if PdfChunks(pdfPath.path, pre) == [] then Ok([]) else Raise(NoNameAttribute)
  {
    var rawText := pre.extract(pdfPath.path);
    var cleaned := CleanPdfText(rawText, pre.normalize);
    var chunks := ChunkTextByTokens(cleaned, ChunkSize, ChunkOverlap, pre.tokenizer);
    out := BuildRecords(chunks, pdfPath);
  }

  /** The records `process_single_pdf` returns for the PDF at `path`. */
  function RecordsOf(path: string, pre: Preprocessing): seq<Dict> {
    Records(PdfChunks(path, pre), PathName(path))
  }

  /** Record `k` of a PDF holds chunk `k` as text. */
  lemma RecordHoldsChunk(path: string, pre: Preprocessing, k: nat)
    requires k < |RecordsOf(path, pre)|
    ensures "chunk" in RecordsOf(path, pre)[k] && RecordsOf(path, pre)[k]["chunk"] == PyStr(PdfChunks(path, pre)[k])
  {
    RecordsAt(PdfChunks(path, pre), PathName(path), k);
  }

  // ---------------------------------------------------------------------
  // process_multiple_pdfs_and_create_index
  // ---------------------------------------------------------------------

  /**
   * The vector index: the embeddings of `texts`, added in order with ids
   * `0, 1, ...`. Embedding is deterministic, so the texts determine it.
   */
  datatype Index = Index(texts: seq<string>)

  /** What one build produces: the index and the metadata list saved beside it. */
  datatype BuiltIndex = BuiltIndex(
    index: Index,
    metadata: seq<Dict>,
    batches: seq<seq<string>>,        // the texts passed to the embedding model, one call each
    ids: seq<int>)

  /** The records of every PDF, file after file. */
  function AllRecords(pdfFiles: seq<string>, pre: Preprocessing): seq<Dict> {
    if pdfFiles == [] then []
    else AllRecords(pdfFiles[..|pdfFiles| - 1], pre) + RecordsOf(pdfFiles[|pdfFiles| - 1], pre)
  }

  /** One more PDF appends its records. */
  lemma AllRecordsStep(pdfFiles: seq<string>, f: nat, pre: Preprocessing)
    requires f < |pdfFiles|
    ensures AllRecords(pdfFiles[..f + 1], pre) == AllRecords(pdfFiles[..f], pre) + RecordsOf(pdfFiles[f], pre)
  {
    assert pdfFiles[..f + 1][..f] == pdfFiles[..f];
  }

  const NoChunks := PyError(RuntimeError, "No text chunks found. Check PDF extraction and folder path.")

  /** Entry `i` of the metadata holds the chunk text `texts[i]`. */
  predicate ChunksAligned(texts: seq<string>, metadata: seq<Dict>) {
    |texts| == |metadata|
    && forall i :: 0 <= i < |texts| ==> "chunk" in metadata[i] && metadata[i]["chunk"] == PyStr(texts[i])
  }

  /** Appending a record and its chunk text together keeps the two lists aligned. */
  lemma AlignedSnoc(texts: seq<string>, metadata: seq<Dict>, r: Dict)
    requires ChunksAligned(texts, metadata) && "chunk" in r && r["chunk"].PyStr?
    ensures ChunksAligned(texts + [r["chunk"].s], metadata + [r])
  {
  }

  /** Every record carries its chunk as text. */
  predicate HoldChunks(records: seq<Dict>) {
    forall i :: 0 <= i < |records| ==> "chunk" in records[i] && records[i]["chunk"].PyStr?
  }

  lemma RecordsOfHoldChunks(path: string, pre: Preprocessing)
    ensures HoldChunks(RecordsOf(path, pre))
  {
    forall k | 0 <= k < |RecordsOf(path, pre)|
      ensures "chunk" in RecordsOf(path, pre)[k] && RecordsOf(path, pre)[k]["chunk"].PyStr?
    {
      RecordHoldsChunk(path, pre, k);
    }
  }

  /** The inner loop: each record of one PDF and its chunk text, appended in lockstep. */
  method AppendRecords(texts: seq<string>, metadata: seq<Dict>, records: seq<Dict>)
    returns (newTexts: seq<string>, newMetadata: seq<Dict>)
    requires ChunksAligned(texts, metadata) && HoldChunks(records)
    ensures newMetadata == metadata + records
    ensures ChunksAligned(newTexts, newMetadata)
  {
    newTexts, newMetadata := texts, metadata;
    var k := 0;
    while k < |records|
      invariant 0 <= k <= |records|
      invariant newMetadata == metadata + records[..k]
      invariant ChunksAligned(newTexts, newMetadata)
    {
      var chunk := records[k]["chunk"].s;
      AlignedSnoc(newTexts, newMetadata, records[k]);
      newTexts := newTexts + [chunk];
      newMetadata := newMetadata + [records[k]];
      assert records[..k + 1] == records[..k] + [records[k]];
      k := k + 1;
    }
    assert records[..k] == records;
  }

  /** The loop over the PDFs, appending each record and its chunk text in lockstep. */
  method CollectChunks(pdfFiles: seq<string>, pre: Preprocessing)
    returns (texts: seq<string>, allMetadata: seq<Dict>)
    ensures allMetadata == AllRecords(pdfFiles, pre)
    ensures ChunksAligned(texts, allMetadata)
  {
    allMetadata := [];
    texts := [];
    var f := 0;
    while f < |pdfFiles|
      invariant 0 <= f <= |pdfFiles|
      invariant allMetadata == AllRecords(pdfFiles[..f], pre)
      invariant ChunksAligned(texts, allMetadata)
    {
      var items := ProcessSinglePdf(PathObject(pdfFiles[f]), pre);
      assert items == Ok(RecordsOf(pdfFiles[f], pre));
      RecordsOfHoldChunks(pdfFiles[f], pre);
      AllRecordsStep(pdfFiles, f, pre);
      texts, allMetadata := AppendRecords(texts, allMetadata, items.value);
      f := f + 1;
    }
    assert pdfFiles[..f] == pdfFiles;
  }

  /**
   * Builds the index from the PDFs of a folder, given in sorted order. The
   * metadata lists every chunk record, and entry `i` describes the text that
   * has id `i` in the index.
   */
  method ProcessMultiplePdfsAndCreateIndex(pdfFiles: seq<string>, pre: Preprocessing)
    returns (result: Outcome<BuiltIndex>)
    ensures AllRecords(pdfFiles, pre) == [] <==> result == Raise(NoChunks)
    ensures result.Ok? ==>
      var built := result.value;
      && built.metadata == AllRecords(pdfFiles, pre)
      && ChunksAligned(built.index.texts, built.metadata)
      && Flatten(built.batches) == built.index.texts
      && (forall b :: 0 <= b < |built.batches| ==> 0 < |built.batches[b]| <= EmbeddingBatchSize)
      && built.ids == seq(|built.metadata|, i => i)
  {
    var texts, allMetadata := CollectChunks(pdfFiles, pre);
    if |texts| == 0 {
      return Raise(NoChunks);
    }
    var batches := EmbeddingBatches(texts);
    var ids := seq(|texts|, i => i);
    return Ok(BuiltIndex(Index(texts), allMetadata, batches, ids));
  }

  /** The slices `texts[i:i + 64]` for `i` in `range(0, len(texts), 64)`. */
  method EmbeddingBatches(texts: seq<string>) returns (batches: seq<seq<string>>)
    ensures Flatten(batches) == texts
    ensures forall b :: 0 <= b < |batches| ==> 0 < |batches[b]| <= EmbeddingBatchSize
    ensures batches == seq(WindowCount(|texts|, EmbeddingBatchSize, 0),
                           i requires 0 <= i => Window(texts, i, EmbeddingBatchSize, 0))
  {
    batches := [];
    var i := 0;
    while i < |texts|
      invariant i == WindowStart(|batches|, EmbeddingBatchSize, 0)
      invariant |texts| > 0 ==> |batches| <= WindowCount(|texts|, EmbeddingBatchSize, 0)
      invariant |texts| == 0 ==> batches == []
      invariant forall b :: 0 <= b < |batches| ==> batches[b] == Window(texts, b, EmbeddingBatchSize, 0)
      decreases |texts| - i
    {
      CountBelow(|texts|, EmbeddingBatchSize, 0, |batches|);
      batches := batches + [PySlice(texts, i, i + EmbeddingBatchSize)];
      i := i + EmbeddingBatchSize;
    }
    if |texts| > 0 {
      CountBelow(|texts|, EmbeddingBatchSize, 0, |batches|);
    }
    assert |batches| == WindowCount(|texts|, EmbeddingBatchSize, 0);
    assert batches == seq(WindowCount(|texts|, EmbeddingBatchSize, 0),
                          i requires 0 <= i => Window(texts, i, EmbeddingBatchSize, 0));
    DisjointWindowsReconstruct(texts, EmbeddingBatchSize);
    forall b | 0 <= b < |batches| ensures 0 < |batches[b]| <= EmbeddingBatchSize {
      WindowShape(texts, b, EmbeddingBatchSize, 0);
    }
  }
}
