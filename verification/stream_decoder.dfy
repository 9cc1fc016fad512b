/**
 * The streaming-response decoder of `callGeminiAPI`.
 *
 * Text chunks arrive with arbitrary boundaries and are appended to a
 * buffer. The buffer is split on line feeds; the last fragment stays in
 * the buffer for the next round, and every complete line that is not
 * blank is handed to the JSON extractor. Lines that fail to parse or carry
 * no text are skipped. Extracted text is appended to `fullText`, and after
 * each append a progress estimate capped at 95 is reported.
 */
module StreamDecoder {
  import opened Base
  import opened JsText

  /** The answer length, in characters, that the progress estimate assumes. */
  const ExpectedLength: real := 3000.0

  /** The highest progress the decoder ever reports; the caller sets 100 itself. */
  const ProgressCap: real := 95.0

  /**
   * `JSON.parse(line)?.candidates?.[0]?.content?.parts?.[0]?.text`:
   * `None` when parsing throws or the path is missing. Its behaviour is
   * that of the JSON library, so the model keeps it as a parameter.
   */
  type Extractor = string -> Option<string>

  /**
   * The decoder's variables: the unterminated `buffer`, the accumulated
   * `fullText`, and the values passed to the progress callback so far.
   */
  datatype Decoder = Decoder(buffer: string, fullText: string, reports: seq<real>)

  /** The state before the first chunk is read. */
  const Start: Decoder := Decoder("", "", [])

  /** Why a call to the generation endpoint yields `null`. */
  datatype CallError =
    | MissingKey          // no API key is configured; nothing is sent
    | NetworkFailure      // `fetch` itself rejected
    | HttpStatus(code: int)  // the response status is not in 200..299
    | NoBody              // the response carries no body to read
    | EmptyText           // the stream ended without any extracted text

  /** An HTTP response: its status and, when present, its body as decoded text chunks. */
  datatype Response = Response(status: int, body: Option<seq<string>>)

  /** `response.ok`. */
  predicate IsOk(status: int) {
    200 <= status <= 299
  }

  /** `Math.min((n / 3000) * 100, 95)` for a text of `n` characters. */
  function Progress(n: nat): (p: real)
    ensures 0.0 <= p <= ProgressCap
    ensures p < ProgressCap <==> n as real * 100.0 < ProgressCap * ExpectedLength
    ensures p < ProgressCap ==> p * ExpectedLength == n as real * 100.0
    ensures n > 0 ==> p > 0.0
  {
    var estimate := n as real / ExpectedLength * 100.0;
    if estimate < ProgressCap then estimate else ProgressCap
  }

  /** A longer text never gets a lower progress estimate. */
  lemma ProgressMonotone(m: nat, n: nat)
    requires m <= n
    ensures Progress(m) <= Progress(n)
  {
    assert m as real / ExpectedLength <= n as real / ExpectedLength;
  }

  /**
   * What one complete line adds to `fullText`: nothing when it is blank,
   * when extraction fails, or when the extracted text is empty; the
   * extracted text otherwise.
   */
  function Contribution(line: string, extract: Extractor): (t: string)
    ensures Blank(line) ==> t == ""
    ensures extract(line).None? ==> t == ""
    ensures !Blank(line) && extract(line).Some? ==> t == extract(line).value
    ensures t != "" ==> extract(line) == Some(t)
  {
    if Blank(line) then ""
    else match extract(line)
      case None => ""
      case Some(text) => text
  }

  /** The body of the `for (const line of lines)` loop. */
  function ProcessLine(d: Decoder, line: string, extract: Extractor): Decoder {
    var text := Contribution(line, extract);
    if text == "" then d
    else
      var full := d.fullText + text;
      d.(fullText := full, reports := d.reports + [Progress(|full|)])
  }

  /** The in-order concatenation of the contributions of `lines`. */
  function Texts(lines: seq<string>, extract: Extractor): string {
    if |lines| == 0 then ""
    else Texts(Init(lines), extract) + Contribution(Last(lines), extract)
  }

  /** How many of `lines` contribute text (and so cause a progress report). */
  function Contributing(lines: seq<string>, extract: Extractor): nat {
    if |lines| == 0 then 0
    else Contributing(Init(lines), extract) + (if Contribution(Last(lines), extract) == "" then 0 else 1)
  }

  /**
   * Processing complete lines in order: the buffer is untouched, the text
   * of every line is appended to `fullText`, and one progress value is
   * reported per contributing line.
   */
  function ProcessLines(d: Decoder, lines: seq<string>, extract: Extractor): (r: Decoder)
    ensures r.buffer == d.buffer
    ensures r.fullText == d.fullText + Texts(lines, extract)
    ensures |r.reports| == |d.reports| + Contributing(lines, extract)
    ensures r.reports[..|d.reports|] == d.reports
  {
    if |lines| == 0 then d
    else ProcessLine(ProcessLines(d, Init(lines), extract), Last(lines), extract)
  }

  /** The complete lines of `s`: everything before its last line feed, split. */
  function CompleteLines(s: string): seq<string> {
    Init(Split(s))
  }

  /** The text after the last line feed of `s` (all of `s` if it has none). */
  function LastFragment(s: string): string {
    Last(Split(s))
  }

  /** One turn of the `while (true)` loop: append the chunk, split, keep the tail, process the rest. */
  function FeedChunk(d: Decoder, chunk: string, extract: Extractor): Decoder {
    var parts := Split(d.buffer + chunk);
    ProcessLines(d.(buffer := Last(parts)), Init(parts), extract)
  }

  /** Feeding a sequence of chunks, one after another. */
  function Feed(d: Decoder, chunks: seq<string>, extract: Extractor): Decoder {
    if |chunks| == 0 then d
    else FeedChunk(Feed(d, Init(chunks), extract), Last(chunks), extract)
  }

  /** The whole text the chunks carry. */
  function Concat(chunks: seq<string>): string {
    if |chunks| == 0 then "" else Concat(Init(chunks)) + Last(chunks)
  }

  /**
   * The decoder state defined from the received text alone, with no
   * reference to chunk boundaries: the buffer is the last fragment, and the
   * complete lines are processed in order from an empty result.
   */
  function Reference(s: string, extract: Extractor): Decoder {
    ProcessLines(Decoder(LastFragment(s), "", []), CompleteLines(s), extract)
  }

  /** The text of `lines` in stream form: every line followed by a line feed. */
  function Terminated(lines: seq<string>): string {
    if |lines| == 0 then "" else lines[0] + "\n" + Terminated(lines[1..])
  }

  /** The last fragment holds no line feed, ends `s`, and follows a line feed unless it is all of `s`. */
  lemma LastFragmentIsTail(s: string)
    ensures '\n' !in LastFragment(s)
    ensures |LastFragment(s)| <= |s| && LastFragment(s) == s[|s| - |LastFragment(s)|..]
    ensures |LastFragment(s)| < |s| ==> s[|s| - |LastFragment(s)| - 1] == '\n'
  {
    var parts := Split(s);
    JoinSplit(s);
    if |parts| >= 2 {
      JoinLast(parts);
      var front := Join(Init(parts)) + "\n";
      assert s == front + Last(parts);
      assert s[|front| - 1] == '\n';
      assert s[|front|..] == Last(parts);
    }
  }

  /** `ProcessLines` over a concatenation is `ProcessLines` over each part in turn. */
  lemma {:induction false} ProcessLinesAppend(d: Decoder, a: seq<string>, b: seq<string>, extract: Extractor)
    ensures ProcessLines(d, a + b, extract) == ProcessLines(ProcessLines(d, a, extract), b, extract)
  {
    if |b| == 0 {
      assert a + b == a;
    } else {
      assert Init(a + b) == a + Init(b);
      assert Last(a + b) == Last(b);
      ProcessLinesAppend(d, a, Init(b), extract);
    }
  }

  /** The buffer plays no part in processing complete lines. */
  lemma {:induction false} ProcessLinesBuffer(d: Decoder, b: string, lines: seq<string>, extract: Extractor)
    ensures ProcessLines(d.(buffer := b), lines, extract) == ProcessLines(d, lines, extract).(buffer := b)
  {
    if |lines| > 0 {
      ProcessLinesBuffer(d, b, Init(lines), extract);
    }
  }

  /** Feeding one more chunk to the reference state of `s` gives the reference state of `s + chunk`. */
  lemma FeedChunkReference(s: string, chunk: string, extract: Extractor)
    ensures FeedChunk(Reference(s, extract), chunk, extract) == Reference(s + chunk, extract)
  {
    var tail := LastFragment(s);
    var parts := Split(tail + chunk);
    SplitAppend(s, chunk);
    assert CompleteLines(s + chunk) == CompleteLines(s) + Init(parts);
    assert LastFragment(s + chunk) == Last(parts);
    var empty := Decoder(Last(parts), "", []);
    ProcessLinesAppend(empty, CompleteLines(s), Init(parts), extract);
    ProcessLinesBuffer(Decoder(tail, "", []), Last(parts), CompleteLines(s), extract);
  }

  /**
   * The decoder loop computes the reference state of everything received:
   * after any number of chunks, the buffer is exactly the text after the
   * last line feed received so far and the result covers exactly the
   * complete lines received so far.
   */
  lemma {:induction false} FeedIsReference(chunks: seq<string>, extract: Extractor)
    ensures Feed(Start, chunks, extract) == Reference(Concat(chunks), extract)
  {
    if |chunks| == 0 {
      assert Split("") == [""];
    } else {
      FeedIsReference(Init(chunks), extract);
      FeedChunkReference(Concat(Init(chunks)), Last(chunks), extract);
    }
  }

  /** Chunking independence: only the concatenated text matters, not where the chunks split it. */
  lemma ChunkingIndependence(chunks1: seq<string>, chunks2: seq<string>, extract: Extractor)
    requires Concat(chunks1) == Concat(chunks2)
    ensures Feed(Start, chunks1, extract) == Feed(Start, chunks2, extract)
  {
    FeedIsReference(chunks1, extract);
    FeedIsReference(chunks2, extract);
  }

  /** `b` is the part of `s` after its last line feed (all of `s` when it has none). */
  predicate IsLastFragment(b: string, s: string) {
    && '\n' !in b
    && |b| <= |s| && b == s[|s| - |b|..]
    && (|b| < |s| ==> s[|s| - |b| - 1] == '\n')
  }

  /** The buffer after any prefix of the stream is the text after the last line feed received. */
  lemma BufferIsLastFragment(chunks: seq<string>, extract: Extractor)
    ensures IsLastFragment(Feed(Start, chunks, extract).buffer, Concat(chunks))
  {
    BufferIsReference(chunks, extract);
    TailFacts(Feed(Start, chunks, extract).buffer, Concat(chunks));
  }

  /** A string equal to the last fragment of `s` is the part of `s` after its last line feed. */
  lemma TailFacts(b: string, s: string)
    requires b == LastFragment(s)
    ensures IsLastFragment(b, s)
  {
    LastFragmentIsTail(s);
  }

  /** The buffer after any prefix of the stream is the reference state's buffer. */
  lemma BufferIsReference(chunks: seq<string>, extract: Extractor)
    ensures Feed(Start, chunks, extract).buffer == LastFragment(Concat(chunks))
  {
    FeedIsReference(chunks, extract);
  }

  /** `fullText` is the in-order concatenation of the contributions of the complete lines received. */
  lemma FullTextIsTexts(chunks: seq<string>, extract: Extractor)
    ensures Feed(Start, chunks, extract).fullText == Texts(CompleteLines(Concat(chunks)), extract)
  {
    FeedIsReference(chunks, extract);
    ReferenceText(Concat(chunks), extract);
  }

  /** The reference state's text is the contributions of the complete lines. */
  lemma ReferenceText(s: string, extract: Extractor)
    ensures Reference(s, extract).fullText == Texts(CompleteLines(s), extract)
  {
    var t := Texts(CompleteLines(s), extract);
    assert "" + t == t;
  }

  /** String concatenation is associative. */
  lemma Associate(x: string, y: string, z: string)
    ensures (x + y) + z == x + (y + z)
  {
  }

  /** The text of a concatenation of line lists is the concatenation of their texts. */
  lemma {:induction false} TextsAppend(a: seq<string>, b: seq<string>, extract: Extractor)
    ensures Texts(a + b, extract) == Texts(a, extract) + Texts(b, extract)
  {
    if |b| == 0 {
      assert a + b == a;
    } else {
      var c := Contribution(Last(b), extract);
      assert Init(a + b) == a + Init(b);
      assert Last(a + b) == Last(b);
      assert Texts(a + b, extract) == Texts(a + Init(b), extract) + c;
      TextsAppend(a, Init(b), extract);
      Associate(Texts(a, extract), Texts(Init(b), extract), c);
    }
  }

  /** No line of `lines` holds a line feed. */
  predicate NoLineFeeds(lines: seq<string>) {
    forall k | 0 <= k < |lines| :: '\n' !in lines[k]
  }

  /** Splitting a terminated line list, followed by an unterminated tail, gives the lines back. */
  lemma {:induction false} TerminatedSplit(lines: seq<string>, tail: string)
    requires NoLineFeeds(lines)
    requires '\n' !in tail
    ensures CompleteLines(Terminated(lines) + tail) == lines
    ensures LastFragment(Terminated(lines) + tail) == tail
  {
    TerminatedJoin(lines, tail);
    SplitJoin(lines + [tail]);
    assert Init(lines + [tail]) == lines;
  }

  /** A terminated line list followed by a tail is the line-feed join of the lines and the tail. */
  lemma {:induction false} TerminatedJoin(lines: seq<string>, tail: string)
    ensures Join(lines + [tail]) == Terminated(lines) + tail
  {
    if |lines| > 0 {
      TerminatedJoin(lines[1..], tail);
      assert (lines + [tail])[1..] == lines[1..] + [tail];
    } else {
      assert lines + [tail] == [tail];
    }
  }

  /**
   * For a stream that carries the lines `lines`, each terminated by a line
   * feed, and then a fragment with no line feed, the decoded text is the
   * concatenation of the lines' contributions however the stream was
   * chunked; the final fragment is never decoded, because the buffer is not
   * flushed when the stream ends.
   */
  lemma DecodeLines(chunks: seq<string>, lines: seq<string>, tail: string, extract: Extractor)
    requires NoLineFeeds(lines)
    requires '\n' !in tail
    requires Concat(chunks) == Terminated(lines) + tail
    ensures Feed(Start, chunks, extract).fullText == Texts(lines, extract)
    ensures Feed(Start, chunks, extract).buffer == tail
  {
    FeedIsReference(chunks, extract);
    ReferenceText(Concat(chunks), extract);
    TerminatedSplit(lines, tail);
  }

  /** A line that contributes nothing leaves the text of a line list unchanged. */
  lemma TextsSkip(before: seq<string>, skipped: string, after: seq<string>, extract: Extractor)
    requires Contribution(skipped, extract) == ""
    ensures Texts(before + [skipped] + after, extract) == Texts(before + after, extract)
  {
    TextsAppend(before + [skipped], after, extract);
    TextsAppend(before, after, extract);
    assert Init(before + [skipped]) == before;
  }

  /** Line lists without line feeds stay so when concatenated. */
  lemma NoLineFeedsConcat(a: seq<string>, b: seq<string>)
    requires NoLineFeeds(a) && NoLineFeeds(b)
    ensures NoLineFeeds(a + b)
  {
    forall k | 0 <= k < |a + b| ensures '\n' !in (a + b)[k] {
      if k >= |a| {
        assert (a + b)[k] == b[k - |a|];
      }
    }
  }

  /**
   * A line that contributes nothing (blank, unparsable, or without text)
   * can be inserted anywhere among the complete lines without changing the
   * decoded text.
   */
  lemma SkippedLineInvisible(chunks1: seq<string>, chunks2: seq<string>,
                             before: seq<string>, skipped: string, after: seq<string>,
                             tail: string, extract: Extractor)
    requires NoLineFeeds(before) && NoLineFeeds(after)
    requires '\n' !in skipped && '\n' !in tail
    requires Contribution(skipped, extract) == ""
    requires Concat(chunks1) == Terminated(before + [skipped] + after) + tail
    requires Concat(chunks2) == Terminated(before + after) + tail
    ensures Feed(Start, chunks1, extract).fullText == Feed(Start, chunks2, extract).fullText
  {
    var with := before + [skipped] + after;
    var without := before + after;
    NoLineFeedsConcat(before, [skipped]);
    NoLineFeedsConcat(before + [skipped], after);
    NoLineFeedsConcat(before, after);
    assert Feed(Start, chunks1, extract).fullText == Texts(with, extract) by {
      DecodeLines(chunks1, with, tail, extract);
    }
    assert Feed(Start, chunks2, extract).fullText == Texts(without, extract) by {
      DecodeLines(chunks2, without, tail, extract);
    }
    TextsSkip(before, skipped, after, extract);
  }

  /**
   * The progress values are in (0, 95], never decrease, and the last one
   * is the estimate for the whole text accumulated so far.
   */
  ghost predicate ReportsWellFormed(d: Decoder) {
    && (forall i | 0 <= i < |d.reports| :: 0.0 < d.reports[i] <= ProgressCap)
    && (forall i | 0 < i < |d.reports| :: d.reports[i - 1] <= d.reports[i])
    && (|d.reports| > 0 ==> Last(d.reports) == Progress(|d.fullText|))
  }

  /** Processing one line keeps the progress values well formed. */
  lemma ProcessLineReports(d: Decoder, line: string, extract: Extractor)
    requires ReportsWellFormed(d)
    ensures ReportsWellFormed(ProcessLine(d, line, extract))
  {
    var text := Contribution(line, extract);
    if text != "" {
      var full := d.fullText + text;
      ProgressMonotone(|d.fullText|, |full|);
      var reports := d.reports + [Progress(|full|)];
      assert reports[..|d.reports|] == d.reports;
      assert forall i | 0 <= i < |d.reports| :: reports[i] == d.reports[i];
    }
  }

  /** Processing lines keeps the progress values well formed. */
  lemma {:induction false} ProcessLinesReports(d: Decoder, lines: seq<string>, extract: Extractor)
    requires ReportsWellFormed(d)
    ensures ReportsWellFormed(ProcessLines(d, lines, extract))
  {
    if |lines| > 0 {
      ProcessLinesReports(d, Init(lines), extract);
      ProcessLineReports(ProcessLines(d, Init(lines), extract), Last(lines), extract);
    }
  }

  /**
   * Progress reported during one decode never decreases, never exceeds 95,
   * and there is exactly one value per line that contributed text.
   */
  lemma ProgressNonDecreasing(chunks: seq<string>, extract: Extractor)
    ensures ReportsWellFormed(Feed(Start, chunks, extract))
    ensures |Feed(Start, chunks, extract).reports| == Contributing(CompleteLines(Concat(chunks)), extract)
  {
    FeedIsReference(chunks, extract);
    ProcessLinesReports(Decoder(LastFragment(Concat(chunks)), "", []), CompleteLines(Concat(chunks)), extract);
  }

  /**
   * The outcome of decoding a whole response body: the accumulated text,
   * or `EmptyText` when nothing was extracted.
   */
  function Decode(chunks: seq<string>, extract: Extractor): (r: Result<string, CallError>)
    ensures r.Ok? <==> Texts(CompleteLines(Concat(chunks)), extract) != ""
    ensures r.Ok? ==> r.value == Texts(CompleteLines(Concat(chunks)), extract)
    ensures r.Err? ==> r.error == EmptyText
  {
    FullTextIsTexts(chunks, extract);
    var d := Feed(Start, chunks, extract);
    if d.fullText == "" then Err(EmptyText) else Ok(d.fullText)
  }

  /**
   * `callGeminiAPI`: without a key nothing is sent; a rejected fetch, a
   * status outside 200..299 or a missing body fail before any decoding;
   * otherwise the body is decoded, and a body that yields no text fails.
   */
  function Call(apiKey: string, response: Option<Response>, extract: Extractor): (r: Result<string, CallError>)
    ensures r == Err(MissingKey) <==> apiKey == ""
    ensures apiKey != "" && response.None? ==> r == Err(NetworkFailure)
    ensures apiKey != "" && response.Some? && !IsOk(response.value.status) ==>
              r == Err(HttpStatus(response.value.status))
    ensures apiKey != "" && response.Some? && IsOk(response.value.status) && response.value.body.None? ==>
              r == Err(NoBody)
    ensures apiKey != "" && response.Some? && IsOk(response.value.status) && response.value.body.Some? ==>
              && (r.Ok? <==> Texts(CompleteLines(Concat(response.value.body.value)), extract) != "")
              && (r.Err? ==> r.error == EmptyText)
    ensures r.Ok? ==>
              && response.Some? && IsOk(response.value.status) && response.value.body.Some?
              && r.value != ""
              && r.value == Texts(CompleteLines(Concat(response.value.body.value)), extract)
  {
    if apiKey == "" then Err(MissingKey)
    else match response
      case None => Err(NetworkFailure)
      case Some(resp) =>
        if !IsOk(resp.status) then Err(HttpStatus(resp.status))
        else match resp.body
          case None => Err(NoBody)
          case Some(chunks) => Decode(chunks, extract)
  }

  /**
   * When a call succeeds, in terms of the decoder loop itself: exactly when
   * a key is set, the response is ok and has a body, and feeding the body's
   * chunks to the decoder accumulates some text, which is then the result.
   */
  lemma CallSucceedsIff(apiKey: string, response: Option<Response>, extract: Extractor)
    ensures Call(apiKey, response, extract).Ok? <==>
              && apiKey != "" && response.Some? && IsOk(response.value.status) && response.value.body.Some?
              && Feed(Start, response.value.body.value, extract).fullText != ""
    ensures Call(apiKey, response, extract).Ok? ==>
              Call(apiKey, response, extract).value == Feed(Start, response.value.body.value, extract).fullText
  {
    if response.Some? && response.value.body.Some? {
      FullTextIsTexts(response.value.body.value, extract);
    }
  }

  /**
   * The decoder loop as written: read chunks until the stream is done,
   * append each to the buffer, split, keep the last fragment, and process
   * every complete line.
   */
  method ReadStream(chunks: seq<string>, extract: Extractor) returns (fullText: string, reports: seq<real>)
    ensures fullText == Texts(CompleteLines(Concat(chunks)), extract)
    ensures Decoder(LastFragment(Concat(chunks)), fullText, reports) == Reference(Concat(chunks), extract)
  {
    var buffer := "";
    fullText, reports := "", [];
    var i := 0;
    while i < |chunks|
      invariant 0 <= i <= |chunks|
      invariant Decoder(buffer, fullText, reports) == Feed(Start, chunks[..i], extract)
    {
      FeedPrefixStep(chunks, i, extract);
      var lines := Split(buffer + chunks[i]);
      buffer := Last(lines);
      fullText, reports := ReadLines(buffer, fullText, reports, Init(lines), extract);
      i := i + 1;
    }
    assert chunks[..i] == chunks;
    FeedResult(chunks, Decoder(buffer, fullText, reports), extract);
  }

  /** Feeding one more chunk of a prefix of the stream. */
  lemma FeedPrefixStep(chunks: seq<string>, i: nat, extract: Extractor)
    requires i < |chunks|
    ensures Feed(Start, chunks[..i + 1], extract) == FeedChunk(Feed(Start, chunks[..i], extract), chunks[i], extract)
  {
    assert Init(chunks[..i + 1]) == chunks[..i];
  }

  /** What the decoder holds once every chunk has been fed. */
  lemma FeedResult(chunks: seq<string>, d: Decoder, extract: Extractor)
    requires d == Feed(Start, chunks, extract)
    ensures d.fullText == Texts(CompleteLines(Concat(chunks)), extract)
    ensures Decoder(LastFragment(Concat(chunks)), d.fullText, d.reports) == Reference(Concat(chunks), extract)
  {
    FeedIsReference(chunks, extract);
    ReferenceText(Concat(chunks), extract);
  }

  /** Processing one more line of a prefix of `lines`. */
  lemma ProcessLinesPrefixStep(d: Decoder, lines: seq<string>, j: nat, extract: Extractor)
    requires j < |lines|
    ensures ProcessLines(d, lines[..j + 1], extract) == ProcessLine(ProcessLines(d, lines[..j], extract), lines[j], extract)
  {
    assert Init(lines[..j + 1]) == lines[..j];
  }

  /** The inner `for (const line of lines)` loop over the complete lines of one round. */
  method ReadLines(buffer: string, fullText0: string, reports0: seq<real>, lines: seq<string>, extract: Extractor)
    returns (fullText: string, reports: seq<real>)
    ensures Decoder(buffer, fullText, reports) == ProcessLines(Decoder(buffer, fullText0, reports0), lines, extract)
  {
    fullText, reports := fullText0, reports0;
    var j := 0;
    while j < |lines|
      invariant 0 <= j <= |lines|
      invariant Decoder(buffer, fullText, reports) == ProcessLines(Decoder(buffer, fullText0, reports0), lines[..j], extract)
    {
      ProcessLinesPrefixStep(Decoder(buffer, fullText0, reports0), lines, j, extract);
      var line := lines[j];
      if !Blank(line) {
        match extract(line)
        case None =>
        case Some(text) =>
          if text != "" {
            fullText := fullText + text;
            reports := reports + [Progress(|fullText|)];
          }
      }
      j := j + 1;
    }
    assert lines[..j] == lines;
  }
}
