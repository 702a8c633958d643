/**
 * Text cleaning and token-window chunking of extracted PDF text
 * (utils/pdf_processing.py). Unicode normalisation and the tokenizer are
 * library calls and come in as function parameters.
 */
module PdfProcessing {
  import opened Text

  // ---------------------------------------------------------------------
  // clean_pdf_text: a fixed chain of regular-expression substitutions
  // ---------------------------------------------------------------------

  /** `re.sub(r"-\n", "", s)`: a single left-to-right pass deleting each "-\n" pair. */
  function RemoveHyphenBreaks(s: string): (r: string)
    ensures |r| <= |s|
  {
    if |s| >= 2 && s[0] == '-' && s[1] == '\n' then RemoveHyphenBreaks(s[2..])
    else if s == [] then []
    else [s[0]] + RemoveHyphenBreaks(s[1..])
  }

  /** `s` without its leading newlines. */
  function DropNewlines(s: string): (r: string)
    ensures |r| <= |s| && r == s[|s| - |r|..]
    ensures forall i :: 0 <= i < |s| - |r| ==> s[i] == '\n'
    ensures r == [] || r[0] != '\n'
  {
    if s != [] && s[0] == '\n' then DropNewlines(s[1..]) else s
  }

  /** `re.sub(r"\n{2,}", "\n\n", s)`: every run of two or more newlines becomes exactly two. */
  function SqueezeBlankLines(s: string): string
    decreases |s|
  {
    if |s| >= 2 && s[0] == '\n' && s[1] == '\n' then
      var rest := DropNewlines(s);
      "\n\n" + SqueezeBlankLines(rest)
    else if s == [] then []
    else [s[0]] + SqueezeBlankLines(s[1..])
  }

  /**
   * `re.sub(r"(?<!\n)\n(?!\n)", " ", s)`: a newline with no newline on either
   * side becomes a space. `afterNewline` says whether the character before `s`
   * in the whole string is a newline (the look-behind sees the original text).
   */
  function JoinSingleNewlines(s: string, afterNewline: bool): (r: string)
    ensures |r| == |s|
    ensures forall i :: 0 <= i < |s| && s[i] != '\n' ==> r[i] == s[i]
    ensures forall i :: 0 <= i < |s| && s[i] == '\n' ==>
      r[i] == (if IsolatedNewline(s, i, afterNewline) then ' ' else '\n')
  {
    if s == [] then []
    else
      var rest := JoinSingleNewlines(s[1..], s[0] == '\n');
      assert forall i :: 1 <= i < |s| ==>
        IsolatedNewline(s, i, afterNewline) == IsolatedNewline(s[1..], i - 1, s[0] == '\n');
      if s[0] == '\n' && IsolatedNewline(s, 0, afterNewline) then " " + rest
      else [s[0]] + rest
  }

  /** The newline at `s[i]` has no newline immediately before or after it. */
  predicate IsolatedNewline(s: string, i: nat, afterNewline: bool)
    requires i < |s|
  {
    (if i == 0 then !afterNewline else s[i - 1] != '\n')
    && (i + 1 == |s| || s[i + 1] != '\n')
  }

  /**
   * `re.sub(r"\s+", " ", s)`: every maximal whitespace run becomes one space.
   * `inRun` says that `s` continues a run whose space is already emitted.
   */
  function CollapseSpaces(s: string, inRun: bool): string {
    if s == [] then []
    else if IsSpace(s[0]) then (if inRun then [] else " ") + CollapseSpaces(s[1..], true)
    else [s[0]] + CollapseSpaces(s[1..], false)
  }

  /** Every whitespace character is a plain space, and no two are adjacent. */
  predicate SingleSpaced(s: string) {
    && (forall i :: 0 <= i < |s| && IsSpace(s[i]) ==> s[i] == ' ')
    && (forall i :: 0 <= i < |s| - 1 ==> !(IsSpace(s[i]) && IsSpace(s[i + 1])))
  }

  /**
   * After collapsing, the only whitespace left is single spaces, never two in
   * a row, and inside a run the output starts with no whitespace.
   */
  lemma {:induction false} CollapseIsSingleSpaced(s: string, inRun: bool)
    ensures SingleSpaced(CollapseSpaces(s, inRun))
    ensures inRun && CollapseSpaces(s, inRun) != [] ==> !IsSpace(CollapseSpaces(s, inRun)[0])
  {
    if s != [] {
      var rest := CollapseSpaces(s[1..], IsSpace(s[0]));
      CollapseIsSingleSpaced(s[1..], IsSpace(s[0]));
      if !IsSpace(s[0]) {
        ConsSingleSpaced(s[0], rest);
      } else if !inRun {
        ConsSingleSpaced(' ', rest);
      }
    }
  }

  /** Putting a character before single-spaced text keeps it single-spaced, unless it makes a second space. */
  lemma ConsSingleSpaced(c: char, t: string)
    requires SingleSpaced(t)
    requires IsSpace(c) ==> c == ' ' && (t == [] || !IsSpace(t[0]))
    ensures SingleSpaced([c] + t)
  {
    var u := [c] + t;
    forall i | 1 <= i < |u| ensures u[i] == t[i - 1] {}
  }

  /** `clean_pdf_text`; `normalize` is `unicodedata.normalize("NFKC", _)`. */
  function CleanPdfText(text: string, normalize: string -> string): string {
    var unhyphenated := RemoveHyphenBreaks(normalize(text));
    var paragraphs := SqueezeBlankLines(unhyphenated);
    var joined := JoinSingleNewlines(paragraphs, false);
    Strip(CollapseSpaces(joined, false))
  }

  /**
   * Text whose only whitespace is single spaces between non-whitespace
   * characters: no newline, no two whitespace characters in a row, and none
   * at either end.
   */
  predicate IsCleanText(s: string) {
    SingleSpaced(s) && (s == [] || (!IsSpace(s[0]) && !IsSpace(s[|s| - 1])))
  }

  /** The output of `clean_pdf_text` is always clean, whatever the input. */
  lemma CleanPdfTextIsClean(text: string, normalize: string -> string)
    ensures IsCleanText(CleanPdfText(text, normalize))
  {
    var unhyphenated := RemoveHyphenBreaks(normalize(text));
    var joined := JoinSingleNewlines(SqueezeBlankLines(unhyphenated), false);
    CollapseIsSingleSpaced(joined, false);
    StripOfSingleSpacedIsClean(CollapseSpaces(joined, false));
  }

  /** A slice of single-spaced text is single-spaced. */
  lemma SingleSpacedSlice(s: string, lo: nat, hi: nat)
    requires lo <= hi <= |s| && SingleSpaced(s)
    ensures SingleSpaced(s[lo..hi])
  {
    var t := s[lo..hi];
    forall i | 0 <= i < |t| ensures t[i] == s[lo + i] {}
  }

  /** Stripping single-spaced text gives clean text. */
  lemma StripOfSingleSpacedIsClean(c: string)
    requires SingleSpaced(c)
    ensures IsCleanText(Strip(c))
  {
    var a := StripStart(c);
    assert SingleSpaced(a) by {
      SingleSpacedSlice(c, |c| - |a|, |c|);
      assert c[|c| - |a|..|c|] == a;
    }
    var b := StripEnd(a);
    assert SingleSpaced(b) by {
      SingleSpacedSlice(a, 0, |b|);
      assert a[0..|b|] == b;
    }
  }

  /**
   * The paragraph-preserving substitutions (`\n{2,}` and the single-newline
   * join) have no effect on the result: the whitespace collapse undoes them.
   */
  lemma ParagraphStepsUndone(text: string, normalize: string -> string)
    ensures CleanPdfText(text, normalize)
         == Strip(CollapseSpaces(RemoveHyphenBreaks(normalize(text)), false))
  {
    var u := RemoveHyphenBreaks(normalize(text));
    var p := SqueezeBlankLines(u);
    CollapseRespectsSpaceSwap(JoinSingleNewlines(p, false), p, false);
    SqueezeKeepsCollapse(u, false);
  }

  /** Swapping whitespace characters for other whitespace characters does not change the collapse. */
  lemma {:induction false} CollapseRespectsSpaceSwap(a: string, b: string, inRun: bool)
    requires |a| == |b|
    requires forall i :: 0 <= i < |a| ==> a[i] == b[i] || (IsSpace(a[i]) && IsSpace(b[i]))
    ensures CollapseSpaces(a, inRun) == CollapseSpaces(b, inRun)
  {
    if a != [] {
      CollapseRespectsSpaceSwap(a[1..], b[1..], true);
      CollapseRespectsSpaceSwap(a[1..], b[1..], false);
    }
  }

  /** A non-empty whitespace run collapses to at most one space. */
  lemma {:induction false} CollapseRun(w: string, s: string, inRun: bool)
    requires w != [] && IsBlank(w)
    ensures CollapseSpaces(w + s, inRun) == (if inRun then [] else " ") + CollapseSpaces(s, true)
  {
    assert (w + s)[1..] == w[1..] + s;
    if |w| > 1 {
      CollapseRun(w[1..], s, true);
    }
  }

  lemma {:induction false} SqueezeKeepsCollapse(s: string, inRun: bool)
    ensures CollapseSpaces(SqueezeBlankLines(s), inRun) == CollapseSpaces(s, inRun)
    decreases |s|
  {
    if |s| >= 2 && s[0] == '\n' && s[1] == '\n' {
      var rest := DropNewlines(s);
      var run := s[..|s| - |rest|];
      assert s == run + rest;
      SqueezeKeepsCollapse(rest, true);
      CollapseRun("\n\n", SqueezeBlankLines(rest), inRun);
      CollapseRun(run, rest, inRun);
    } else if s != [] {
      var tail := SqueezeBlankLines(s[1..]);
      assert ([s[0]] + tail)[1..] == tail;
      SqueezeKeepsCollapse(s[1..], true);
      SqueezeKeepsCollapse(s[1..], false);
    }
  }

  /** A "-\n" pair is deleted and the text on either side is processed independently. */
  lemma {:induction false} HyphenBreakDeleted(a: string, b: string)
    ensures RemoveHyphenBreaks(a + "-\n" + b) == RemoveHyphenBreaks(a) + RemoveHyphenBreaks(b)
  {
    var s := a + "-\n" + b;
    if a == [] {
      assert s == "-\n" + b;
      assert s[2..] == b;
    } else if |a| >= 2 && a[0] == '-' && a[1] == '\n' {
      assert RemoveHyphenBreaks(s) == RemoveHyphenBreaks(s[2..]) by {
        assert s[0] == '-' && s[1] == '\n';
      }
      assert s[2..] == a[2..] + "-\n" + b;
      HyphenBreakDeleted(a[2..], b);
    } else {
      assert RemoveHyphenBreaks(s) == [a[0]] + RemoveHyphenBreaks(s[1..]) by {
        assert s[0] == a[0];
        assert s[1] == if |a| >= 2 then a[1] else '-';
      }
      assert s[1..] == a[1..] + "-\n" + b;
      HyphenBreakDeleted(a[1..], b);
      assert RemoveHyphenBreaks(a) == [a[0]] + RemoveHyphenBreaks(a[1..]);
    }
  }

  /** Text without a hyphen passes through unchanged. */
  lemma {:induction false} NoHyphenUnchanged(s: string)
    requires forall i :: 0 <= i < |s| ==> s[i] != '-'
    ensures RemoveHyphenBreaks(s) == s
  {
    if s != [] {
      NoHyphenUnchanged(s[1..]);
    }
  }

  /** Two hyphen-free words split across a line break by a hyphen are joined: "co-\noperate" becomes "cooperate". */
  lemma HyphenatedHyphenFreeWords(a: string, b: string)
    requires forall i :: 0 <= i < |a| ==> a[i] != '-'
    requires forall i :: 0 <= i < |b| ==> b[i] != '-'
    ensures RemoveHyphenBreaks(a + "-\n" + b) == a + b
  {
    HyphenBreakDeleted(a, b);
    NoHyphenUnchanged(a);
    NoHyphenUnchanged(b);
  }

  /** The pass does not rescan its own output: "--\n\n" leaves a new "-\n" behind. */
  lemma HyphenPassIsSinglePass()
    ensures RemoveHyphenBreaks("--\n\n") == "-\n"
  {
    HyphenBreakDeleted("-", "\n");
    assert "-" + "-\n" + "\n" == "--\n\n";
  }

  // ---------------------------------------------------------------------
  // chunk_text_by_tokens: a sliding token window
  // ---------------------------------------------------------------------

  type Token = int

  /** The `tiktoken` encoding used for chunking: an opaque pair of functions. */
  datatype Tokenizer = Tokenizer(encode: string -> seq<Token>, decode: seq<Token> -> string)

  /** `s[lo:hi]` in Python for a non-negative `lo`: a negative `hi` counts from the end, and both ends are clamped. */
  function PySlice<T>(s: seq<T>, lo: nat, hi: int): seq<T> {
    var h := if hi < 0 then (if hi + |s| < 0 then 0 else hi + |s|) else Min(hi, |s|);
    if lo >= h then [] else s[lo..h]
  }

  /** Window `i` starts `i` strides into the tokens, the stride being `chunkSize - overlap`. */
  function WindowStart(i: nat, chunkSize: int, overlap: int): nat
    requires chunkSize > overlap
  {
    i * (chunkSize - overlap)
  }

  /** Window `i` is `tokens[start : start + chunk_size]`. */
  function Window<T>(tokens: seq<T>, i: nat, chunkSize: int, overlap: int): seq<T>
    requires chunkSize > overlap
  {
    var start := WindowStart(i, chunkSize, overlap);
    PySlice(tokens, start, start + chunkSize)
  }

  /** The number of window starts below `n`: ceil(n / (chunkSize - overlap)). */
  function WindowCount(n: nat, chunkSize: int, overlap: int): nat
    requires n == 0 || chunkSize > overlap
  {
    if n == 0 then 0 else (n + (chunkSize - overlap) - 1) / (chunkSize - overlap)
  }

  /** The chunk texts: each window of the token sequence, decoded. */
  function Chunks(tokens: seq<Token>, chunkSize: int, overlap: int, decode: seq<Token> -> string): seq<string>
    requires |tokens| == 0 || chunkSize > overlap
  {
    if |tokens| == 0 then []
    else seq(WindowCount(|tokens|, chunkSize, overlap),
             i requires 0 <= i => decode(Window(tokens, i, chunkSize, overlap)))
  }

  /**
   * `chunk_text_by_tokens`. The source has no guard on the parameters: with
   * `chunk_size <= overlap` and a non-empty token sequence `start` never
   * advances, so that is the one case callers must avoid.
   */
  method ChunkTextByTokens(text: string, chunkSize: int, overlap: int, tokenizer: Tokenizer)
    returns (chunks: seq<string>)
    requires |tokenizer.encode(text)| == 0 || chunkSize > overlap
    ensures chunks == Chunks(tokenizer.encode(text), chunkSize, overlap, tokenizer.decode)
    ensures tokenizer.encode(text) == [] ==> chunks == []
  {
    var tokens := tokenizer.encode(text);
    chunks := [];
    var start := 0;
    while start < |tokens|
      invariant |tokens| > 0 ==> start == WindowStart(|chunks|, chunkSize, overlap)
      invariant |tokens| > 0 ==> |chunks| <= WindowCount(|tokens|, chunkSize, overlap)
      invariant |tokens| > 0 ==> forall i :: 0 <= i < |chunks| ==>
        chunks[i] == tokenizer.decode(Window(tokens, i, chunkSize, overlap))
      invariant |tokens| == 0 ==> chunks == []
      decreases |tokens| - start
    {
      CountBelow(|tokens|, chunkSize, overlap, |chunks|);
      var chunkTokens := PySlice(tokens, start, start + chunkSize);
      chunks := chunks + [tokenizer.decode(chunkTokens)];
      WindowStartNext(|chunks| - 1, chunkSize, overlap);
      start := start + (chunkSize - overlap);
    }
    if |tokens| > 0 {
      CountBelow(|tokens|, chunkSize, overlap, |chunks|);
    }
  }

  /** Consecutive windows start one stride apart. */
  lemma WindowStartNext(i: nat, chunkSize: int, overlap: int)
    requires chunkSize > overlap
    ensures WindowStart(i + 1, chunkSize, overlap) == WindowStart(i, chunkSize, overlap) + (chunkSize - overlap)
  {
    assert (i + 1) * (chunkSize - overlap) == i * (chunkSize - overlap) + (chunkSize - overlap);
  }

  /** Window `c` exists exactly when it starts before the end of the tokens. */
  lemma CountBelow(n: nat, chunkSize: int, overlap: int, c: nat)
    requires n > 0 && chunkSize > overlap
    ensures WindowStart(c, chunkSize, overlap) < n <==> c < WindowCount(n, chunkSize, overlap)
  {
    var step := chunkSize - overlap;
    var q := (n + step - 1) / step;
    var r := (n + step - 1) % step;
    assert n + step - 1 == q * step + r && 0 <= r < step;
    if c * step < n {
      if c >= q { MulMono(q, c, step); }
    } else {
      if c < q { MulMono(c + 1, q, step); }
    }
  }

  lemma MulMono(a: int, b: int, k: nat)
    requires a <= b
    ensures a * k <= b * k
  {
  }

  /** The loop runs exactly ceil(N / (chunk_size - overlap)) times: every window starts before N, the next start would not. */
  lemma WindowCountExact(n: nat, chunkSize: int, overlap: int)
    requires n > 0 && chunkSize > overlap
    ensures forall i :: 0 <= i < WindowCount(n, chunkSize, overlap) ==> WindowStart(i, chunkSize, overlap) < n
    ensures WindowStart(WindowCount(n, chunkSize, overlap), chunkSize, overlap) >= n
  {
    forall i | 0 <= i < WindowCount(n, chunkSize, overlap)
      ensures WindowStart(i, chunkSize, overlap) < n
    {
      CountBelow(n, chunkSize, overlap, i);
    }
    CountBelow(n, chunkSize, overlap, WindowCount(n, chunkSize, overlap));
  }

  /**
   * With `0 <= overlap < chunkSize`, window `i` is `tokens[start .. min(start + chunkSize, N)]`:
   * non-empty, at most `chunkSize` long, and shorter only when `start + chunkSize` passes `N`.
   */
  lemma WindowShape<T>(tokens: seq<T>, i: nat, chunkSize: int, overlap: int)
    requires 0 <= overlap < chunkSize
    requires i < WindowCount(|tokens|, chunkSize, overlap)
    ensures var start := WindowStart(i, chunkSize, overlap);
      && start < |tokens|
      && Window(tokens, i, chunkSize, overlap) == tokens[start..Min(start + chunkSize, |tokens|)]
      && 0 < |Window(tokens, i, chunkSize, overlap)| <= chunkSize
      && (|Window(tokens, i, chunkSize, overlap)| < chunkSize <==> start + chunkSize > |tokens|)
  {
    CountBelow(|tokens|, chunkSize, overlap, i);
  }

  /** Every token lies in some window: token `j` is in window `j / (chunkSize - overlap)`. */
  lemma WindowsCover<T>(tokens: seq<T>, chunkSize: int, overlap: int, j: nat)
    requires 0 <= overlap < chunkSize && j < |tokens|
    ensures exists i :: (0 <= i < WindowCount(|tokens|, chunkSize, overlap)
      && WindowStart(i, chunkSize, overlap) <= j < WindowStart(i, chunkSize, overlap) + |Window(tokens, i, chunkSize, overlap)|
      && Window(tokens, i, chunkSize, overlap)[j - WindowStart(i, chunkSize, overlap)] == tokens[j])
  {
    var i := j / (chunkSize - overlap);
    var start := WindowStart(i, chunkSize, overlap);
    StrideContains(j, chunkSize - overlap);
    CountBelow(|tokens|, chunkSize, overlap, i);
    WindowShape(tokens, i, chunkSize, overlap);
    assert Window(tokens, i, chunkSize, overlap)[j - start] == tokens[j];
  }

  /** Position `j` lies in stride `j / step`. */
  lemma StrideContains(j: nat, step: int)
    requires step > 0
    ensures (j / step) * step <= j < (j / step) * step + step
  {
    assert j == (j / step) * step + j % step;
  }

  /** A full-length window and its successor share exactly `overlap` tokens. */
  lemma ConsecutiveWindowsOverlap<T>(tokens: seq<T>, i: nat, chunkSize: int, overlap: int)
    requires 0 <= overlap < chunkSize
    requires WindowStart(i, chunkSize, overlap) + chunkSize <= |tokens|
    ensures |Window(tokens, i, chunkSize, overlap)| == chunkSize
    ensures |Window(tokens, i + 1, chunkSize, overlap)| >= overlap
    ensures Window(tokens, i, chunkSize, overlap)[chunkSize - overlap..]
         == Window(tokens, i + 1, chunkSize, overlap)[..overlap]
  {
    var step := chunkSize - overlap;
    assert WindowStart(i + 1, chunkSize, overlap) == i * step + step;
  }

  /** Concatenation of a sequence of sequences. */
  function Flatten<T>(parts: seq<seq<T>>): seq<T> {
    if parts == [] then [] else Flatten(parts[..|parts| - 1]) + parts[|parts| - 1]
  }

  /** The part of window `i` that window `i + 1` does not repeat. */
  function FreshPart<T>(tokens: seq<T>, i: nat, chunkSize: int, overlap: int): seq<T>
    requires chunkSize > overlap
  {
    var w := Window(tokens, i, chunkSize, overlap);
    w[..Min(chunkSize - overlap, |w|)]
  }

  /** Concatenating the non-overlapping part of every window gives back the token sequence. */
  lemma FreshPartsReconstruct<T>(tokens: seq<T>, chunkSize: int, overlap: int)
    requires 0 <= overlap < chunkSize
    ensures Flatten(seq(WindowCount(|tokens|, chunkSize, overlap),
                        i requires 0 <= i => FreshPart(tokens, i, chunkSize, overlap))) == tokens
  {
    var count := WindowCount(|tokens|, chunkSize, overlap);
    var parts := seq(count, i requires 0 <= i => FreshPart(tokens, i, chunkSize, overlap));
    FreshPartsPrefix(tokens, chunkSize, overlap, parts, count);
    if |tokens| > 0 {
      WindowCountExact(|tokens|, chunkSize, overlap);
    }
    assert parts[..count] == parts;
  }

  lemma {:induction false} FreshPartsPrefix<T>(tokens: seq<T>, chunkSize: int, overlap: int, parts: seq<seq<T>>, c: nat)
    requires 0 <= overlap < chunkSize
    requires |parts| == WindowCount(|tokens|, chunkSize, overlap)
    requires forall i :: 0 <= i < |parts| ==> parts[i] == FreshPart(tokens, i, chunkSize, overlap)
    requires c <= |parts|
    ensures Flatten(parts[..c]) == tokens[..Min(WindowStart(c, chunkSize, overlap), |tokens|)]
  {
    if c > 0 {
      FreshPartsPrefix(tokens, chunkSize, overlap, parts, c - 1);
      var s := WindowStart(c - 1, chunkSize, overlap);
      var e := Min(s + (chunkSize - overlap), |tokens|);
      FreshPartShape(tokens, c - 1, chunkSize, overlap);
      FlattenPrefixStep(parts, c);
      SlicesJoin(tokens, s, e);
    }
  }

  /** Flattening one more part appends that part. */
  lemma FlattenPrefixStep<T>(parts: seq<seq<T>>, c: nat)
    requires 0 < c <= |parts|
    ensures Flatten(parts[..c]) == Flatten(parts[..c - 1]) + parts[c - 1]
  {
    assert parts[..c][..c - 1] == parts[..c - 1];
  }

  /** Two adjacent slices join into one. */
  lemma SlicesJoin<T>(s: seq<T>, i: nat, j: nat)
    requires i <= j <= |s|
    ensures s[..i] + s[i..j] == s[..j]
  {
  }

  /** The fresh part of window `i` is the tokens from its start up to the next window's start. */
  lemma FreshPartShape<T>(tokens: seq<T>, i: nat, chunkSize: int, overlap: int)
    requires 0 <= overlap < chunkSize
    requires i < WindowCount(|tokens|, chunkSize, overlap)
    ensures var s := WindowStart(i, chunkSize, overlap);
            && WindowStart(i + 1, chunkSize, overlap) == s + (chunkSize - overlap)
            && s < |tokens|
            && FreshPart(tokens, i, chunkSize, overlap) == tokens[s..Min(s + (chunkSize - overlap), |tokens|)]
  {
    WindowStartNext(i, chunkSize, overlap);
    WindowShape(tokens, i, chunkSize, overlap);
  }

  /** With no overlap the windows themselves concatenate to the input. */
  lemma DisjointWindowsReconstruct<T>(items: seq<T>, size: int)
    requires size > 0
    ensures Flatten(seq(WindowCount(|items|, size, 0), i requires 0 <= i => Window(items, i, size, 0))) == items
  {
    var count := WindowCount(|items|, size, 0);
    FreshPartsReconstruct(items, size, 0);
    var windows := seq(count, i requires 0 <= i => Window(items, i, size, 0));
    var heads := seq(count, i requires 0 <= i => FreshPart(items, i, size, 0));
    forall i | 0 <= i < count ensures windows[i] == heads[i] {
      WindowShape(items, i, size, 0);
    }
    assert windows == heads;
  }

  /** More than one trailing window can be short: five tokens, windows of four, overlap three. */
  lemma ShortTrailingWindows()
    ensures WindowCount(5, 4, 3) == 5
    ensures |Window([1, 2, 3, 4, 5], 2, 4, 3)| == 3
    ensures |Window([1, 2, 3, 4, 5], 3, 4, 3)| == 2
    ensures |Window([1, 2, 3, 4, 5], 4, 4, 3)| == 1
  {
  }
}
