/** The RFI answer-assembly pipeline of
    legal-rfi-assistant/code/streamlit-app/app.py: the extraction-output
    filter (`get_questions`), the answer resolver (`get_answer`), the run
    accumulator (`run_chunk_document`) and the upload step that starts it.

    Every call to a managed service is a parameter: the question
    extractor's reply for a chunk (`extract`), the knowledge base's reply
    for a question (`retrieve`), the document loader's outcome and the
    clock readings. */
module RfiPipeline {
  import opened Wrappers
  import opened Text
  import opened RfiStatus
  import S3Uri

  // ---------------------------------------------------------------------
  // Question extraction (`get_questions`)

  /** One content block of the model's reply; a block without a "text"
      entry is `OtherBlock`. */
  datatype ContentBlock = TextBlock(text: string) | OtherBlock

  /** The model invocation either raised a client error or returned the
      reply's content list. */
  datatype InvokeOutcome = ClientError(message: string) | Invoked(content: seq<ContentBlock>)

  const RefusalMarker: string := "Unfortunately"

  /** `str(KeyError('text'))`, raised when the first block has no text. */
  const MissingTextError: string := "'text'"

  /** `get_questions` on the model's reply: it looks at the first content
      block only; a reply starting with "Unfortunately" becomes "", an
      empty content list gives no value (`None`), and a client error or a
      block without text is raised to the caller. */
  function GetQuestions(reply: InvokeOutcome): (r: Result<Option<string>>)
    ensures reply.ClientError? ==> r == Failure(reply.message)
    ensures reply.Invoked? && reply.content == [] ==> r == Success(None)
    ensures reply.Invoked? && reply.content != [] && reply.content[0].OtherBlock? ==> r == Failure(MissingTextError)
    ensures reply.Invoked? && reply.content != [] && reply.content[0].TextBlock? ==> r.Success? && r.value.Some?
    ensures r.Success? && r.value.Some? ==>
              reply.Invoked? && reply.content != [] && reply.content[0].TextBlock? &&
              r.value.value == (if StartsWith(reply.content[0].text, RefusalMarker) then "" else reply.content[0].text)
  {
    match reply
    case ClientError(message) => Failure(message)
    case Invoked(content) =>
      if content == [] then Success(None)
      else match content[0]
        case OtherBlock => Failure(MissingTextError)
        case TextBlock(text) => Success(Some(if StartsWith(text, RefusalMarker) then "" else text))
  }

  /** `if output:` in `run_chunk_document`: the extraction gave a non-empty
      string. */
  predicate HasQuestions(extracted: Option<string>) {
    extracted.Some? && extracted.value != ""
  }

  /** A chunk yields questions exactly when the reply's first block is a
      non-empty text that does not start with "Unfortunately"; the blocks
      after the first never matter. */
  lemma ExtractionYieldsQuestions(reply: InvokeOutcome)
    ensures GetQuestions(reply).Success? && HasQuestions(GetQuestions(reply).value) <==>
              reply.Invoked? && reply.content != [] && reply.content[0].TextBlock? &&
              reply.content[0].text != "" && !StartsWith(reply.content[0].text, RefusalMarker)
    ensures reply.Invoked? && reply.content != [] ==>
              GetQuestions(reply) == GetQuestions(Invoked(reply.content[..1]))
  {
  }

  // ---------------------------------------------------------------------
  // Answer resolution (`get_answer`)

  /** A retrieved reference; `s3Uri` is `location.s3Location.uri`, `None`
      when the reference has no S3 location. */
  datatype Reference = Reference(s3Uri: Option<string>)
  datatype Citation = Citation(references: seq<Reference>)

  /** The knowledge base's `retrieve_and_generate` call: it raised, or it
      returned the output text and the citations. */
  datatype Retrieval = Failed(message: string) | Answered(text: string, citations: seq<Citation>)

  /** One report entry: the `{question, answer, metadata}` dictionary. */
  datatype AnswerRecord = AnswerRecord(question: string, answer: string, metadata: string)

  const QuestionSeparator: string := "\n\n"
  const AnswerLabel: string := "Answer: "
  const UrlLabel: string := "url: "
  /** The "no answer" value: a single space. */
  const Blank: string := " "
  const ErrorAnswer: string := "Error: Unable to process the question."

  const NegativePhrases: seq<string> := [
    "Sorry, I am unable",
    "The search results do not contain",
    "No answer",
    "I could not find",
    "there is no relevant information to extract for this question"
  ]

  /** The knowledge base's text says it found nothing. */
  predicate IsNegative(text: string) {
    exists k :: 0 <= k < |NegativePhrases| && Contains(text, NegativePhrases[k])
  }

  /** The record `get_answer` appends for one question segment, given the
      knowledge base's reply to it. The question is filled in only after
      the call returned; a reply whose citation list is empty, or whose
      first reference has no S3 location, fails inside the `try` while
      the label is read and is recorded as an error too. */
  function Resolve(segment: string, reply: Retrieval): AnswerRecord {
    match reply
    case Failed(_) => AnswerRecord("", ErrorAnswer, Blank)
    case Answered(text, citations) =>
      if IsNegative(text) then AnswerRecord(segment, Blank, Blank)
      else if citations == [] then AnswerRecord(segment, ErrorAnswer, Blank)
      else if citations[0].references == [] then AnswerRecord(segment, AnswerLabel + text, Blank)
      else match citations[0].references[0].s3Uri
        case None => AnswerRecord(segment, ErrorAnswer, Blank)
        case Some(uri) => AnswerRecord(segment, AnswerLabel + text, UrlLabel + uri)
  }

  /** What a report entry says, read back from its labels alone. */
  datatype Finding = NotFound | Found(text: string, source: Option<string>) | Unprocessed

  function ReadRecord(r: AnswerRecord): Finding {
    if r.answer == Blank then NotFound
    else if StartsWith(r.answer, AnswerLabel) then
      Found(r.answer[|AnswerLabel|..],
            if StartsWith(r.metadata, UrlLabel) then Some(r.metadata[|UrlLabel|..]) else None)
    else Unprocessed
  }

  /** The labels are unambiguous: from a record alone one recovers whether
      the knowledge base answered (with the answer text and the first
      reference's URI, if the first citation has one), reported nothing,
      or could not be used; and the question is recorded unless the call
      itself failed. */
  lemma {:induction false} ResolveReadsBack(segment: string, reply: Retrieval)
    ensures Resolve(segment, reply).question == (if reply.Failed? then "" else segment)
    ensures reply.Failed? ==>
              Resolve(segment, reply).answer == ErrorAnswer && Resolve(segment, reply).metadata == Blank &&
              ReadRecord(Resolve(segment, reply)) == Unprocessed
    ensures reply.Answered? && IsNegative(reply.text) ==>
              Resolve(segment, reply).answer == Blank && Resolve(segment, reply).metadata == Blank &&
              ReadRecord(Resolve(segment, reply)) == NotFound
    ensures reply.Answered? && !IsNegative(reply.text) && reply.citations == [] ==>
              Resolve(segment, reply).answer == ErrorAnswer && Resolve(segment, reply).metadata == Blank
    ensures reply.Answered? && !IsNegative(reply.text) && reply.citations != [] && reply.citations[0].references == [] ==>
              Resolve(segment, reply).answer == AnswerLabel + reply.text && Resolve(segment, reply).metadata == Blank &&
              ReadRecord(Resolve(segment, reply)) == Found(reply.text, None)
    ensures reply.Answered? && !IsNegative(reply.text) && reply.citations != [] &&
            reply.citations[0].references != [] && reply.citations[0].references[0].s3Uri.None? ==>
              Resolve(segment, reply).answer == ErrorAnswer && Resolve(segment, reply).metadata == Blank
    ensures reply.Answered? && !IsNegative(reply.text) && reply.citations != [] &&
            reply.citations[0].references != [] && reply.citations[0].references[0].s3Uri.Some? ==>
              Resolve(segment, reply).answer == AnswerLabel + reply.text &&
              Resolve(segment, reply).metadata == UrlLabel + reply.citations[0].references[0].s3Uri.value &&
              ReadRecord(Resolve(segment, reply)) == Found(reply.text, reply.citations[0].references[0].s3Uri)
    ensures ReadRecord(Resolve(segment, reply)).Unprocessed? <==>
              reply.Failed? || (!IsNegative(reply.text) &&
                                (reply.citations == [] ||
                                 (reply.citations[0].references != [] && reply.citations[0].references[0].s3Uri.None?)))
  {
    var r := Resolve(segment, reply);
    assert !StartsWith(ErrorAnswer, AnswerLabel) by { assert ErrorAnswer[0] != AnswerLabel[0]; }
    assert ErrorAnswer != Blank;
    assert !StartsWith(Blank, UrlLabel);
    if reply.Answered? && !IsNegative(reply.text) {
      var a := AnswerLabel + reply.text;
      assert a != Blank by { assert |a| >= |AnswerLabel|; }
      assert StartsWith(a, AnswerLabel) && a[|AnswerLabel|..] == reply.text;
      if reply.citations != [] && reply.citations[0].references != [] && reply.citations[0].references[0].s3Uri.Some? {
        var m := UrlLabel + reply.citations[0].references[0].s3Uri.value;
        assert StartsWith(m, UrlLabel) && m[|UrlLabel|..] == reply.citations[0].references[0].s3Uri.value;
      }
    }
  }

  /** One record per segment, in segment order. */
  function ResolveAll(segments: seq<string>, retrieve: string -> Retrieval): (records: seq<AnswerRecord>)
    ensures |records| == |segments|
    ensures forall k :: 0 <= k < |segments| ==> records[k] == Resolve(segments[k], retrieve(segments[k]))
  {
    if segments == [] then []
    else [Resolve(segments[0], retrieve(segments[0]))] + ResolveAll(segments[1..], retrieve)
  }

  /** The question segments `get_answer` resolves: the extractor's text
      split at blank lines, without the first piece. */
  function QuestionSegments(questions: string): seq<string> {
    Split(questions, QuestionSeparator)[1..]
  }

  /** What `get_answer(questions)` returns. */
  function Answers(questions: string, retrieve: string -> Retrieval): seq<AnswerRecord> {
    ResolveAll(QuestionSegments(questions), retrieve)
  }

  /** `get_answer`: one knowledge-base call and one record per segment, a
      failed call recorded in place without stopping the loop. */
  method GetAnswer(questions: string, retrieve: string -> Retrieval) returns (answers: seq<AnswerRecord>)
    ensures answers == Answers(questions, retrieve)
  {
    var segments := Split(questions, QuestionSeparator);
    answers := [];
    var i := 1;
    while i < |segments|
      invariant 1 <= i <= |segments|
      invariant |answers| == i - 1
      invariant forall k :: 0 <= k < i - 1 ==>
                  answers[k] == Resolve(segments[k + 1], retrieve(segments[k + 1]))
    {
      var segment := segments[i];
      var reply := retrieve(segment);
      answers := answers + [Resolve(segment, reply)];
      i := i + 1;
    }
  }

  /** The segments are exactly the text after the first blank line, cut at
      every later blank line: joined back with the separator after the
      first piece they reproduce the input, and none of them contains a
      blank line. Text without a blank line yields no records. */
  lemma SegmentsCoverInput(questions: string)
    ensures var parts := Split(questions, QuestionSeparator);
            |QuestionSegments(questions)| == |parts| - 1 &&
            (|parts| > 1 ==> questions == parts[0] + QuestionSeparator + Join(QuestionSegments(questions), QuestionSeparator))
    ensures forall k :: 0 <= k < |QuestionSegments(questions)| ==> !Contains(QuestionSegments(questions)[k], QuestionSeparator)
    ensures !Contains(questions, QuestionSeparator) ==> QuestionSegments(questions) == []
  {
    JoinSplit(questions, QuestionSeparator);
    SplitPiecesAreFree(questions, QuestionSeparator);
    if !Contains(questions, QuestionSeparator) {
      SplitWithoutSeparator(questions, QuestionSeparator);
    }
  }

  /** `get_answer`'s result record by record: the k-th record answers the
      (k+1)-th blank-line-separated piece, whatever happened to the
      others. */
  lemma AnswersAt(questions: string, retrieve: string -> Retrieval, k: nat)
    requires k < |QuestionSegments(questions)|
    ensures |Answers(questions, retrieve)| == |QuestionSegments(questions)|
    ensures var segment := QuestionSegments(questions)[k];
            Answers(questions, retrieve)[k] == Resolve(segment, retrieve(segment))
  {
  }

  // ---------------------------------------------------------------------
  // The run (`run_chunk_document`)

  /** The records one chunk contributes: none unless its extraction gave a
      non-empty text. */
  function ChunkRecords(extracted: Option<string>, retrieve: string -> Retrieval): seq<AnswerRecord> {
    if HasQuestions(extracted) then Answers(extracted.value, retrieve) else []
  }

  /** The report of a run over `chunks`, or the error of the first chunk
      whose extraction raised, which ends the run. */
  function Report(chunks: seq<string>, extract: string -> InvokeOutcome, retrieve: string -> Retrieval): Result<seq<AnswerRecord>>
    decreases |chunks|
  {
    if chunks == [] then Success([])
    else match GetQuestions(extract(chunks[0]))
      case Failure(e) => Failure(e)
      case Success(extracted) => Prepend(ChunkRecords(extracted, retrieve), Report(chunks[1..], extract, retrieve))
  }

  function Prepend(records: seq<AnswerRecord>, rest: Result<seq<AnswerRecord>>): Result<seq<AnswerRecord>> {
    match rest
    case Failure(e) => Failure(e)
    case Success(later) => Success(records + later)
  }

  /** A run over two consecutive parts of a document reports the first
      part's records followed by the second's; it fails as soon as either
      part fails, with the first error. */
  lemma {:induction false} ReportAppend(a: seq<string>, b: seq<string>, extract: string -> InvokeOutcome, retrieve: string -> Retrieval)
    ensures Report(a + b, extract, retrieve) ==
              match Report(a, extract, retrieve)
              case Failure(e) => Failure(e)
              case Success(first) => Prepend(first, Report(b, extract, retrieve))
    decreases |a|
  {
    if a == [] {
      assert a + b == b;
      PrependNothing(Report(b, extract, retrieve));
    } else {
      assert (a + b)[0] == a[0] && (a + b)[1..] == a[1..] + b;
      ReportAppend(a[1..], b, extract, retrieve);
      var extracted := GetQuestions(extract(a[0]));
      if extracted.Success? {
        var tail := Report(a[1..], extract, retrieve);
        if tail.Success? {
          PrependTwice(ChunkRecords(extracted.value, retrieve), tail.value, Report(b, extract, retrieve));
        }
      }
    }
  }

  lemma PrependNothing(r: Result<seq<AnswerRecord>>)
    ensures Prepend([], r) == r
  {
    if r.Success? {
      assert [] + r.value == r.value;
    }
  }

  lemma PrependTwice(a: seq<AnswerRecord>, b: seq<AnswerRecord>, r: Result<seq<AnswerRecord>>)
    ensures Prepend(a, Prepend(b, r)) == Prepend(a + b, r)
  {
    if r.Success? {
      assert a + (b + r.value) == (a + b) + r.value;
    }
  }

  /** A successful report holds exactly one record per question segment of
      each chunk that yielded questions. */
  function RecordCount(chunks: seq<string>, extract: string -> InvokeOutcome): nat
    decreases |chunks|
  {
    if chunks == [] then 0
    else
      var extracted := GetQuestions(extract(chunks[0]));
      (if extracted.Success? && HasQuestions(extracted.value) then |QuestionSegments(extracted.value.value)| else 0)
      + RecordCount(chunks[1..], extract)
  }

  lemma {:induction false} ReportLength(chunks: seq<string>, extract: string -> InvokeOutcome, retrieve: string -> Retrieval)
    requires Report(chunks, extract, retrieve).Success?
    ensures |Report(chunks, extract, retrieve).value| == RecordCount(chunks, extract)
    decreases |chunks|
  {
    if chunks != [] {
      ReportLength(chunks[1..], extract, retrieve);
    }
  }

  /** The run reports nothing for a chunk without questions: leaving such a
      chunk out changes nothing. */
  lemma QuietChunkContributesNothing(before: seq<string>, chunk: string, after: seq<string>,
                                     extract: string -> InvokeOutcome, retrieve: string -> Retrieval)
    requires GetQuestions(extract(chunk)).Success? && !HasQuestions(GetQuestions(extract(chunk)).value)
    ensures Report(before + [chunk] + after, extract, retrieve) == Report(before + after, extract, retrieve)
  {
    ReportAppend(before, [chunk] + after, extract, retrieve);
    ReportAppend(before, after, extract, retrieve);
    assert before + [chunk] + after == before + ([chunk] + after);
    assert ([chunk] + after)[1..] == after;
    PrependNothing(Report(after, extract, retrieve));
  }

  /** The document loader (Textract, then the token splitter): the chunks,
      or the error it raised. */
  type Loaded = Result<seq<string>>

  /** The two clock readings of a run: when PROCESSING and when the
      terminal status are written. */
  datatype RunClock = RunClock(started: string, finished: string)

  /** The terminal status item of a run and the report shown, if any. */
  function RunEnd(documentId: string, fileName: string, docUrl: string, user: Option<UserInfo>, loaded: Loaded,
                  extract: string -> InvokeOutcome, retrieve: string -> Retrieval, finished: string): StatusItem
  {
    match loaded
    case Failure(e) => BuildStatusItem(documentId, fileName, docUrl, Error, finished, user, Some(ErrorInfo(e)))
    case Success(chunks) =>
      match Report(chunks, extract, retrieve)
      case Failure(e) => BuildStatusItem(documentId, fileName, docUrl, Error, finished, user, Some(ErrorInfo(e)))
      case Success(records) =>
        BuildStatusItem(documentId, fileName, docUrl, Completed, finished, user,
                        Some(Counts(|chunks|, |chunks|, |records|)))
  }

  /** The chunk loop of `run_chunk_document`: extract each chunk's
      questions, resolve them when there are any and append the records,
      count the chunk; an extraction error leaves the loop (and the run). */
  method AccumulateChunks(chunks: seq<string>, extract: string -> InvokeOutcome, retrieve: string -> Retrieval)
    returns (outcome: Result<seq<AnswerRecord>>, counter: nat)
    ensures outcome == Report(chunks, extract, retrieve)
    ensures outcome.Success? ==> counter == |chunks|
  {
    var questionAndAnswer: seq<AnswerRecord> := [];
    counter := 0;
    var maxChunks := |chunks|;
    var i := 0;
    assert chunks[i..] == chunks;
    PrependNothing(Report(chunks, extract, retrieve));
    while i < maxChunks
      invariant 0 <= i <= maxChunks && counter == i
      invariant Report(chunks, extract, retrieve) == Prepend(questionAndAnswer, Report(chunks[i..], extract, retrieve))
    {
      var output := GetQuestions(extract(chunks[i]));
      if output.Failure? {
        ReportStep(chunks, i, extract, retrieve);
        return Failure(output.error), counter;
      }
      ReportStep(chunks, i, extract, retrieve);
      var result: seq<AnswerRecord> := [];
      if HasQuestions(output.value) {
        result := GetAnswer(output.value.value, retrieve);
      }
      assert result == ChunkRecords(output.value, retrieve);
      PrependTwice(questionAndAnswer, result, Report(chunks[i + 1..], extract, retrieve));
      questionAndAnswer := questionAndAnswer + result;
      counter := counter + 1;
      i := i + 1;
      if counter >= maxChunks {
        break;
      }
    }
    assert chunks[i..] == [];
    assert questionAndAnswer + [] == questionAndAnswer;
    outcome := Success(questionAndAnswer);
  }

  /** One chunk's step of a run: an extraction error ends it, otherwise
      the chunk's records come before those of the chunks after it. */
  lemma ReportStep(chunks: seq<string>, i: nat, extract: string -> InvokeOutcome, retrieve: string -> Retrieval)
    requires i < |chunks|
    ensures Report(chunks[i..], extract, retrieve) ==
              match GetQuestions(extract(chunks[i]))
              case Failure(e) => Failure(e)
              case Success(extracted) => Prepend(ChunkRecords(extracted, retrieve), Report(chunks[i + 1..], extract, retrieve))
  {
    assert chunks[i..][0] == chunks[i] && chunks[i..][1..] == chunks[i + 1..];
  }

  /** `run_chunk_document`: writes PROCESSING, loads and chunks the
      document, accumulates the records of every chunk in order, then
      writes COMPLETED with the chunk and answer counts and hands the
      report to the page; any exception instead writes ERROR with its
      text and shows nothing. */
  method RunChunkDocument(table: StatusTable, documentId: string, fileName: string, docUrl: string,
                          user: Option<UserInfo>, loaded: Loaded,
                          extract: string -> InvokeOutcome, retrieve: string -> Retrieval, clock: RunClock)
    returns (shown: Option<seq<AnswerRecord>>)
    modifies table
    ensures var processing := BuildStatusItem(documentId, fileName, docUrl, Processing, clock.started, user, None);
            var final := RunEnd(documentId, fileName, docUrl, user, loaded, extract, retrieve, clock.finished);
            table.log == old(table.log) + [processing, final] &&
            table.items == old(table.items)[documentId := final]
    ensures shown.Some? <==> loaded.Success? && Report(loaded.value, extract, retrieve).Success?
    ensures shown.Some? ==> shown.value == Report(loaded.value, extract, retrieve).value
  {
    RunEndCases(documentId, fileName, docUrl, user, loaded, extract, retrieve, clock.finished);
    UpdateDocumentStatus(table, documentId, fileName, docUrl, Processing, clock.started, user, None);
    if loaded.Failure? {
      UpdateDocumentStatus(table, documentId, fileName, docUrl, Error, clock.finished, user, Some(ErrorInfo(loaded.error)));
      return None;
    }
    var chunks := loaded.value;
    var maxChunks := |chunks|;
    var outcome, counter := AccumulateChunks(chunks, extract, retrieve);
    if outcome.Failure? {
      UpdateDocumentStatus(table, documentId, fileName, docUrl, Error, clock.finished, user, Some(ErrorInfo(outcome.error)));
      return None;
    }
    var questionAndAnswer := outcome.value;
    var metadata := Counts(counter, maxChunks, |questionAndAnswer|);
    UpdateDocumentStatus(table, documentId, fileName, docUrl, Completed, clock.finished, user, Some(metadata));
    shown := Some(questionAndAnswer);
  }

  /** The terminal item of each way a run can end. */
  lemma RunEndCases(documentId: string, fileName: string, docUrl: string, user: Option<UserInfo>, loaded: Loaded,
                    extract: string -> InvokeOutcome, retrieve: string -> Retrieval, finished: string)
    ensures loaded.Failure? ==>
              RunEnd(documentId, fileName, docUrl, user, loaded, extract, retrieve, finished) ==
              BuildStatusItem(documentId, fileName, docUrl, Error, finished, user, Some(ErrorInfo(loaded.error)))
    ensures loaded.Success? && Report(loaded.value, extract, retrieve).Failure? ==>
              RunEnd(documentId, fileName, docUrl, user, loaded, extract, retrieve, finished) ==
              BuildStatusItem(documentId, fileName, docUrl, Error, finished, user,
                              Some(ErrorInfo(Report(loaded.value, extract, retrieve).error)))
    ensures loaded.Success? && Report(loaded.value, extract, retrieve).Success? ==>
              RunEnd(documentId, fileName, docUrl, user, loaded, extract, retrieve, finished) ==
              BuildStatusItem(documentId, fileName, docUrl, Completed, finished, user,
                              Some(Counts(|loaded.value|, |loaded.value|, |Report(loaded.value, extract, retrieve).value|)))
  {
  }

  // ---------------------------------------------------------------------
  // Upload and processing (`upload_to_s3` and the "Process Document" action)

  /** `name.replace(" ", "_")` */
  function SafeFileName(name: string): (r: string)
    ensures |r| == |name|
    ensures forall k :: 0 <= k < |name| ==> r[k] == (if name[k] == ' ' then '_' else name[k])
  {
    if name == [] then []
    else [if name[0] == ' ' then '_' else name[0]] + SafeFileName(name[1..])
  }

  /** The clock readings of an upload: UPLOADED, PROCESSING, final status. */
  datatype UploadClock = UploadClock(uploaded: string, run: RunClock)

  /** The "Process Document" action: store the file under its name with
      spaces replaced by underscores, record UPLOADED (with the original
      name and the new locator), then run the pipeline. A failed upload
      writes nothing. Together with `RunChunkDocument` this gives the
      status sequence UPLOADED, PROCESSING, then COMPLETED or ERROR. */
  method ProcessUpload(table: StatusTable, documentId: string, fileName: string, bucket: string, stored: bool,
                       user: Option<UserInfo>, loaded: Loaded,
                       extract: string -> InvokeOutcome, retrieve: string -> Retrieval, clock: UploadClock)
    returns (shown: Option<seq<AnswerRecord>>)
    modifies table
    ensures !stored ==> shown.None? && table.log == old(table.log) && table.items == old(table.items)
    ensures stored ==>
              var url := S3Uri.Url(bucket, SafeFileName(fileName));
              var final := RunEnd(documentId, fileName, url, user, loaded, extract, retrieve, clock.run.finished);
              table.log == old(table.log) + [
                BuildStatusItem(documentId, fileName, url, Uploaded, clock.uploaded, user, None),
                BuildStatusItem(documentId, fileName, url, Processing, clock.run.started, user, None),
                final] &&
              table.items == old(table.items)[documentId := final] &&
              final.status in {Completed.Name(), Error.Name()}
  {
    if !stored {
      return None;
    }
    var url := S3Uri.Url(bucket, SafeFileName(fileName));
    UpdateDocumentStatus(table, documentId, fileName, url, Uploaded, clock.uploaded, user, None);
    shown := RunChunkDocument(table, documentId, fileName, url, user, loaded, extract, retrieve, clock.run);
  }
}
