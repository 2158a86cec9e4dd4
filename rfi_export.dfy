/** How the RFI app lays out a report: the Word export
    (`create_word_document`) and the on-page view (`display_results`) in
    legal-rfi-assistant/code/streamlit-app/app.py. The document is kept as
    the sequence of paragraphs it adds; fonts, colours and the file bytes
    are not modelled. */
module RfiExport {
  import opened Text
  import opened RfiPipeline

  /** A paragraph of the exported document. */
  datatype Block =
    | Heading(level: nat, text: string)
    | Centered(text: string)
    | Bold(text: string)
    | Plain(text: string)
    | Italic(text: string)
    | Empty

  const ReportTitle: string := "Document Analysis Results"
  const NoAnswerFound: string := "No answer found for this question."

  /** The answer is printed when it is not blank after `strip()`. */
  predicate ShowsAnswer(r: AnswerRecord) { !IsBlank(r.answer) }

  /** The source is printed when the metadata is not blank. */
  predicate ShowsSource(r: AnswerRecord) { !IsBlank(r.metadata) }

  /** The answer paragraph's text. */
  function AnswerText(r: AnswerRecord): string {
    if ShowsAnswer(r) then r.answer else NoAnswerFound
  }

  /** `'_' * 50` between two questions, with an empty paragraph on each
      side. */
  function Separator(): seq<Block> {
    [Empty, Centered(Repeat('_', 50)), Empty]
  }

  /** The paragraphs for the result at position `i` (counted from 0) of
      `n` results. */
  function Section(i: nat, n: nat, r: AnswerRecord): seq<Block> {
    QuestionBlocks(i, r) + AnswerBlocks(r) + Trailer(i, n)
  }

  /** The numbered heading, the question in bold and the answer heading. */
  function QuestionBlocks(i: nat, r: AnswerRecord): seq<Block> {
    [Heading(1, "Question " + Decimal(i + 1) + ":"), Bold(r.question), Heading(2, "Answer:")]
  }

  /** The answer (or the italic placeholder) and the source, if shown. */
  function AnswerBlocks(r: AnswerRecord): seq<Block> {
    [if ShowsAnswer(r) then Plain(r.answer) else Italic(NoAnswerFound)]
    + (if ShowsSource(r) then [Heading(2, "Source:"), Plain(r.metadata)] else [])
  }

  /** The separator, unless this is the last result. */
  function Trailer(i: nat, n: nat): seq<Block> {
    if i + 1 < n then Separator() else []
  }

  /** Title, generation time and an empty paragraph. */
  function Header(generatedAt: string): seq<Block> {
    [Heading(0, ReportTitle), Centered("Generated on: " + generatedAt), Empty]
  }

  /** The sections of `results[from..]`. */
  function Sections(results: seq<AnswerRecord>, from: nat): seq<Block>
    requires from <= |results|
    decreases |results| - from
  {
    if from == |results| then []
    else Section(from, |results|, results[from]) + Sections(results, from + 1)
  }

  /** `create_word_document`: the header, then one section per result in
      report order. */
  method CreateWordDocument(results: seq<AnswerRecord>, generatedAt: string) returns (doc: seq<Block>)
    ensures doc == Header(generatedAt) + Sections(results, 0)
  {
    doc := Header(generatedAt);
    var i := 0;
    while i < |results|
      invariant 0 <= i <= |results|
      invariant doc + Sections(results, i) == Header(generatedAt) + Sections(results, 0)
    {
      assert Sections(results, i) == Section(i, |results|, results[i]) + Sections(results, i + 1);
      doc := doc + Section(i, |results|, results[i]);
      i := i + 1;
    }
    assert doc + [] == doc;
  }

  /** The bold paragraphs of a document, in order: the question texts. */
  function BoldTexts(doc: seq<Block>): seq<string> {
    if doc == [] then []
    else (if doc[0].Bold? then [doc[0].text] else []) + BoldTexts(doc[1..])
  }

  lemma {:induction false} BoldTextsAppend(a: seq<Block>, b: seq<Block>)
    ensures BoldTexts(a + b) == BoldTexts(a) + BoldTexts(b)
    decreases |a|
  {
    if a == [] {
      assert a + b == b;
    } else {
      assert (a + b)[0] == a[0] && (a + b)[1..] == a[1..] + b;
      BoldTextsAppend(a[1..], b);
    }
  }

  lemma {:induction false} NoBoldTexts(doc: seq<Block>)
    requires forall k :: 0 <= k < |doc| ==> !doc[k].Bold?
    ensures BoldTexts(doc) == []
    decreases |doc|
  {
    if doc != [] { NoBoldTexts(doc[1..]); }
  }

  function Questions(results: seq<AnswerRecord>): seq<string> {
    if results == [] then [] else [results[0].question] + Questions(results[1..])
  }

  /** Exporting keeps the report's order: reading the bold paragraphs of
      the document gives back the questions, one per result, in order. */
  lemma {:induction false} ExportKeepsQuestionOrder(results: seq<AnswerRecord>, generatedAt: string)
    ensures BoldTexts(Header(generatedAt) + Sections(results, 0)) == Questions(results)
  {
    BoldTextsAppend(Header(generatedAt), Sections(results, 0));
    NoBoldTexts(Header(generatedAt));
    SectionsQuestions(results, 0);
    assert results[0..] == results;
  }

  lemma {:induction false} SectionsQuestions(results: seq<AnswerRecord>, from: nat)
    requires from <= |results|
    ensures BoldTexts(Sections(results, from)) == Questions(results[from..])
    decreases |results| - from
  {
    if from < |results| {
      SectionsQuestions(results, from + 1);
      BoldTextsAppend(Section(from, |results|, results[from]), Sections(results, from + 1));
      SectionQuestion(from, |results|, results[from]);
      assert results[from..][1..] == results[from + 1..];
    }
  }

  /** A section's only bold paragraph is its question. */
  lemma SectionQuestion(i: nat, n: nat, r: AnswerRecord)
    ensures BoldTexts(Section(i, n, r)) == [r.question]
  {
    var q := QuestionBlocks(i, r);
    BoldTextsAppend(q + AnswerBlocks(r), Trailer(i, n));
    BoldTextsAppend(q, AnswerBlocks(r));
    NoBoldTexts(AnswerBlocks(r));
    NoBoldTexts(Trailer(i, n));
    assert q == [q[0]] + ([q[1]] + [q[2]]);
    BoldTextsCons(q[0], [q[1]] + [q[2]]);
    BoldTextsCons(q[1], [q[2]]);
    NoBoldTexts([q[2]]);
  }

  lemma BoldTextsCons(x: Block, rest: seq<Block>)
    ensures BoldTexts([x] + rest) == (if x.Bold? then [x.text] else []) + BoldTexts(rest)
  {
    assert ([x] + rest)[1..] == rest;
  }

  /** The separator lines of a document. */
  function SeparatorCount(doc: seq<Block>): nat {
    if doc == [] then 0
    else (if doc[0] == Centered(Repeat('_', 50)) then 1 else 0) + SeparatorCount(doc[1..])
  }

  lemma {:induction false} SeparatorCountAppend(a: seq<Block>, b: seq<Block>)
    ensures SeparatorCount(a + b) == SeparatorCount(a) + SeparatorCount(b)
    decreases |a|
  {
    if a == [] {
      assert a + b == b;
    } else {
      assert (a + b)[0] == a[0] && (a + b)[1..] == a[1..] + b;
      SeparatorCountAppend(a[1..], b);
    }
  }

  lemma {:induction false} NoSeparators(doc: seq<Block>)
    requires forall k :: 0 <= k < |doc| ==> !doc[k].Centered?
    ensures SeparatorCount(doc) == 0
    decreases |doc|
  {
    if doc != [] { NoSeparators(doc[1..]); }
  }

  /** Separators stand only between two results: an export of n results
      holds n - 1 of them (none for an empty report). */
  lemma {:induction false} ExportSeparators(results: seq<AnswerRecord>, generatedAt: string)
    ensures SeparatorCount(Header(generatedAt) + Sections(results, 0)) == if results == [] then 0 else |results| - 1
  {
    var h := Header(generatedAt);
    SeparatorCountAppend(h, Sections(results, 0));
    assert SeparatorCount(h) == 0 by {
      SeparatorCountAppend(h[..1], h[1..]);
      NoSeparators(h[..1]);
      SeparatorCountAppend(h[1..2], h[2..]);
      NoSeparators(h[2..]);
      assert h[1] != Centered(Repeat('_', 50)) by {
        assert h[1].text[0] != Repeat('_', 50)[0];
      }
      assert h[1..2][1..] == [];
    }
    SectionsSeparators(results, 0);
  }

  lemma {:induction false} SectionsSeparators(results: seq<AnswerRecord>, from: nat)
    requires from <= |results|
    ensures SeparatorCount(Sections(results, from)) == if from == |results| then 0 else |results| - from - 1
    decreases |results| - from
  {
    if from < |results| {
      SectionsSeparators(results, from + 1);
      SeparatorCountAppend(Section(from, |results|, results[from]), Sections(results, from + 1));
      SectionSeparator(from, |results|, results[from]);
    }
  }

  /** A section ends with a separator exactly when another follows it. */
  lemma SectionSeparator(i: nat, n: nat, r: AnswerRecord)
    ensures SeparatorCount(Section(i, n, r)) == if i + 1 < n then 1 else 0
  {
    SeparatorCountAppend(QuestionBlocks(i, r) + AnswerBlocks(r), Trailer(i, n));
    SeparatorCountAppend(QuestionBlocks(i, r), AnswerBlocks(r));
    NoSeparators(QuestionBlocks(i, r));
    NoSeparators(AnswerBlocks(r));
    if i + 1 < n {
      var sep := Separator();
      assert sep == [sep[0]] + ([sep[1]] + [sep[2]]);
      SeparatorCountCons(sep[0], [sep[1]] + [sep[2]]);
      SeparatorCountCons(sep[1], [sep[2]]);
      NoSeparators([sep[2]]);
    } else {
      NoSeparators(Trailer(i, n));
    }
  }

  lemma SeparatorCountCons(x: Block, rest: seq<Block>)
    ensures SeparatorCount([x] + rest) == (if x == Centered(Repeat('_', 50)) then 1 else 0) + SeparatorCount(rest)
  {
    assert ([x] + rest)[1..] == rest;
  }

  // ---------------------------------------------------------------------
  // The on-page view (`display_results`)

  /** One expander: its title, the answer text and the source, if shown. */
  datatype ResultView = ResultView(title: string, answer: string, source: seq<string>)

  function View(i: nat, r: AnswerRecord): ResultView {
    ResultView("Question " + Decimal(i + 1) + ": " + Take(r.question, 100) + "...",
               AnswerText(r), if ShowsSource(r) then [r.metadata] else [])
  }

  function Views(results: seq<AnswerRecord>): seq<ResultView> {
    seq(|results|, i requires 0 <= i < |results| => View(i, results[i]))
  }

  /** The page and the document agree: for every result, the page shows
      the same answer text as the document's answer paragraph, and a
      source exactly when the document has a "Source:" section. The
      knowledge base's "nothing found" record shows the placeholder and no
      source in both. */
  lemma ViewMatchesDocument(results: seq<AnswerRecord>, i: nat)
    requires i < |results|
    ensures var section := Section(i, |results|, results[i]);
            var view := Views(results)[i];
            section[3].text == view.answer &&
            (|view.source| == 1 <==> |section| > 4 && section[4] == Heading(2, "Source:")) &&
            (results[i].answer == Blank && results[i].metadata == Blank ==>
               section[3] == Italic(NoAnswerFound) && view.source == [])
  {
    var r := results[i];
    var section := Section(i, |results|, r);
    if !ShowsSource(r) && i + 1 < |results| {
      assert section[4] == Empty;
    }
    if !ShowsSource(r) && i + 1 >= |results| {
      assert |section| == 4;
    }
    assert IsSpace(Blank[0]);
  }
}
