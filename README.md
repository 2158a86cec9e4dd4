# RFI assistant and agent chat: a Dafny model

This project models the deterministic logic of three parts of the
samples-for-rag-solutions repository. Each call to a managed AWS service
(Bedrock, the knowledge base, DynamoDB, S3, Textract) becomes an input.

* **The RFI answer-assembly pipeline** of
  `legal-rfi-assistant/code/streamlit-app/app.py`:
  * the question-extraction filter, `get_questions`;
  * the answer resolver, `get_answer`;
  * the chunk run, `run_chunk_document`, with its status records UPLOADED, PROCESSING, COMPLETED and ERROR;
  * the document history page: the admin filter, conversion, newest-first sort and history rows;
  * the layout of the Word export and the on-page results.
* **The document-processor Lambda**
  (`legal-rfi-assistant/code/lambdas/document-processor-lambda/document_processor.py`):
  * routing;
  * upload validation and storage;
  * the two-step status update of `process_document`;
  * the document listing.
* **The agent chat page** (`advanced-rag-assistant/streamlit/agent_chatbot.py`):
  * the session id;
  * the `s3://bucket/key` split;
  * one chat turn, which folds the agent's event stream into text parts and citations, collects the cited locators, stores the interaction and extends the history.

Modules, one file each:

* `Wrappers`: `Option` and `Result`.
* `Text`: the Python string operations the code uses, namely `startswith`, `in`, `split`/`join`, `strip() == ""`, `s[:n]`, `str(int)` and `c * n`.
* `Ordering`: Python's `str` order and the stable `sort(key=..., reverse=True)`.
* `RfiStatus`: the status item and the documents table.
* `S3Uri`: the `s3://bucket/key` locator.
* `RfiPipeline`: extraction, answers, the run and the upload action.
* `RfiHistory`: the history page.
* `RfiExport`: the Word export and the results view.
* `DocumentProcessor`: the Lambda.
* `AgentChatbot`: the agent chat page.

State that the source updates in place is modelled as classes:

* `RfiStatus.StatusTable`: the DynamoDB table the app writes.
* `DocumentProcessor.Store`: the Lambda's table and bucket.
* `AgentChatbot.ChatSession`: the page's session id, chat history and interactions table.

The loops of the source are methods proved against specification functions:

* `GetAnswer` and `AccumulateChunks`;
* `ConvertItems` and `HistoryRows`;
* `CreateWordDocument`;
* `FoldStream` and `CollectUrls`.

Behaviour of the code worth noting:

* A document that splits into no chunks completes with counts 0/0/0. It does not fail.
* An extraction error (a client error, or a first content block without text) ends the whole run with status ERROR. It does not skip the chunk.
* The session id is eight characters, and `'-'` is the sixth one, at index 5 counted from 0.

## Model

Several functions carry the modelled behaviour and are stated through the lemmas and methods about them:

* `RfiPipeline.Resolve` through `ResolveReadsBack`.
* `RfiPipeline.Report` through `ReportAppend`, `ReportLength`, `QuietChunkContributesNothing` and `AccumulateChunks`.
* `DocumentProcessor.Route` through `RoutePrecedence`, `RouteApiPaths` and `Handle`.
* `AgentChatbot.SessionId` through `SessionIdRoundTrip`.
* `AgentChatbot.SplitUri` through `SplitUriOfUrl` and `SplitUriShape`.
* `RfiHistory.ProcessingInfo` through `ProcessingInfoCases` and `HistoryShowsRecordedStatus`.
* `RfiHistory.Visible` through `OwnedBy` and `GetDocumentHistory`.
* `RfiExport.View` through `ViewMatchesDocument`.


| member | source | states |
|---|---|---|
| Text.JoinSplit | legal-rfi-assistant/code/streamlit-app/app.py:369 | `split("\n\n")` loses nothing: joining the pieces with the separator gives back the extractor's text |
| Text.SplitPiecesAreFree | legal-rfi-assistant/code/streamlit-app/app.py:369 | no piece of the split contains the separator |
| Text.SplitCutsLeftmost | legal-rfi-assistant/code/streamlit-app/app.py:369 | every cut is at the leftmost occurrence: no occurrence of the separator starts inside a piece the separator follows, so "\n\n\n" gives "" and "\n" |
| Text.SplitWithoutSeparator | legal-rfi-assistant/code/streamlit-app/app.py:369 | a text without the separator splits into itself alone |
| Text.ContainsIffOccurs | legal-rfi-assistant/code/streamlit-app/app.py:415 | Python's `phrase in text` holds exactly when the phrase occurs at some index of the text |
| Text.ContainsIsNoLonger | legal-rfi-assistant/code/streamlit-app/app.py:415 | only a text at least as long as the phrase can contain it |
| Text.Take | legal-rfi-assistant/code/streamlit-app/app.py:822 | `s[:n]` is a prefix of `s` of length min(n, len(s)) |
| Text.Repeat | legal-rfi-assistant/code/streamlit-app/app.py:591 | `'_' * 50` is fifty underscores |
| Text.DecimalRoundTrip | legal-rfi-assistant/code/streamlit-app/app.py:818-820 | `str(n)` of a count is a non-empty run of digits that reads back as `n`, with no leading zero |
| Ordering.LessIrreflexive | legal-rfi-assistant/code/streamlit-app/app.py:263 | no timestamp string sorts before itself |
| Ordering.LessAsymmetric | legal-rfi-assistant/code/streamlit-app/app.py:263 | string order is asymmetric |
| Ordering.LessTotal | legal-rfi-assistant/code/streamlit-app/app.py:263 | any two different strings are ordered one way or the other |
| Ordering.LessTransitive | legal-rfi-assistant/code/streamlit-app/app.py:263 | string order is transitive |
| Ordering.AtLeastTransitive | legal-rfi-assistant/code/streamlit-app/app.py:263 | "not smaller" is transitive, the relation a newest-first list keeps |
| Ordering.InsertPermutes | legal-rfi-assistant/code/streamlit-app/app.py:263 | inserting an entry into a list adds exactly that entry |
| Ordering.InsertSorted | legal-rfi-assistant/code/streamlit-app/app.py:263 | inserting into a newest-first list keeps it newest first |
| Ordering.InsertKeepsKeyOrder | legal-rfi-assistant/code/streamlit-app/app.py:263 | inserting keeps the relative order of entries with equal keys |
| Ordering.SortDescCorrect | legal-rfi-assistant/code/streamlit-app/app.py:263 | `sort(key, reverse=True)` returns a permutation of its input, in non-increasing key order, and is stable (entries with equal keys keep their order) |
| RfiStatus.BuildStatusItem | legal-rfi-assistant/code/streamlit-app/app.py:185-202 | the item carries the id, the file name, the locator and the timestamp as given, and the status string; a username only when a user is signed in, the user's own or "unknown"; metadata exactly when given |
| RfiStatus.StatusTable.Put | legal-rfi-assistant/code/streamlit-app/app.py:204-209 | `put_item` replaces the item stored under the document id and nothing else |
| RfiStatus.UpdateDocumentStatus | legal-rfi-assistant/code/streamlit-app/app.py:185-212 | the table maps the id to the built item, and the item is appended to the write log |
| S3Uri.Url | legal-rfi-assistant/code/streamlit-app/app.py:456 | `s3://{bucket}/{key}` starts with the scheme, has '/' right after the bucket and ends with the key |
| RfiPipeline.GetQuestions | legal-rfi-assistant/code/streamlit-app/app.py:324-335 | only the first content block counts: a text block always gives a value, "" for a reply starting with "Unfortunately", else its text; no value for empty content; a client error or a block without text is raised |
| RfiPipeline.ExtractionYieldsQuestions | legal-rfi-assistant/code/streamlit-app/app.py:327-335 | a chunk yields questions exactly when the first block is a non-empty text not starting with "Unfortunately"; later blocks never matter |
| RfiPipeline.ResolveReadsBack | legal-rfi-assistant/code/streamlit-app/app.py:377-428 | a failed call leaves the question "" and records the error answer with metadata " "; a negative phrase gives answer and metadata " "; an empty citation list or a first reference without an S3 location gives the error answer with metadata " "; otherwise "Answer: " + text with "url: " + the first citation's first reference, or " " without references; the labels read back unambiguously, and an error record arises exactly on a failed call, an empty citation list or a reference without an S3 location |
| RfiPipeline.ResolveAll | legal-rfi-assistant/code/streamlit-app/app.py:375-430 | one record per segment, the k-th resolving the k-th segment |
| RfiPipeline.GetAnswer | legal-rfi-assistant/code/streamlit-app/app.py:368-432 | the loop returns the records of the segments after the first, in order, a failed call recorded in place |
| RfiPipeline.SegmentsCoverInput | legal-rfi-assistant/code/streamlit-app/app.py:369-375 | the segments are the text after the first blank line cut at every later one: they rebuild the input, contain no blank line, and input without a blank line yields none |
| RfiPipeline.AnswersAt | legal-rfi-assistant/code/streamlit-app/app.py:373-430 | exactly one record per segment after the first; record k answers segment k+1 whatever happened to the others |
| RfiPipeline.ReportAppend | legal-rfi-assistant/code/streamlit-app/app.py:486-494 | the report of two consecutive runs of chunks is the first's records followed by the second's, failing with the first error |
| RfiPipeline.ReportLength | legal-rfi-assistant/code/streamlit-app/app.py:489-491 | a successful report has exactly one record per question segment of each chunk that yielded questions |
| RfiPipeline.QuietChunkContributesNothing | legal-rfi-assistant/code/streamlit-app/app.py:488-491 | a chunk whose extraction is empty or absent contributes nothing: removing it leaves the report unchanged |
| RfiPipeline.AccumulateChunks | legal-rfi-assistant/code/streamlit-app/app.py:480-494 | the chunk loop returns the in-order concatenation of the chunks' answers, or the first extraction error; on success the counter equals the number of chunks |
| RfiPipeline.RunChunkDocument | legal-rfi-assistant/code/streamlit-app/app.py:463-515 | writes PROCESSING, then COMPLETED with chunks_processed = total_chunks = number of chunks and answers_found = report length, or ERROR with the error text; the report is shown exactly on success |
| RfiPipeline.SafeFileName | legal-rfi-assistant/code/streamlit-app/app.py:445 | every space of the name becomes '_', every other character is kept |
| RfiPipeline.ProcessUpload | legal-rfi-assistant/code/streamlit-app/app.py:741-760 | a failed upload writes nothing; otherwise the statuses UPLOADED, PROCESSING and then COMPLETED or ERROR are written in that order, under the locator of the space-free name |
| RfiHistory.ConvertItems | legal-rfi-assistant/code/streamlit-app/app.py:241-260 | the conversion loop converts every scanned item, in order |
| RfiHistory.OwnedBy | legal-rfi-assistant/code/streamlit-app/app.py:224-230 | the username filter keeps every item of the user's as often as the table holds it, and no other item |
| RfiHistory.OwnedByAppend | legal-rfi-assistant/code/streamlit-app/app.py:224-230 | the filter keeps scan order: filtering two consecutive stretches gives the first stretch's items, then the second's |
| RfiHistory.GetDocumentHistory | legal-rfi-assistant/code/streamlit-app/app.py:215-268 | the visible items converted and sorted newest first (a permutation, stable); all items for an admin or without a user, only the user's items otherwise, none for a user without a username; an empty history when the scan raises |
| RfiHistory.ProcessingInfoCases | legal-rfi-assistant/code/streamlit-app/app.py:815-822 | chunk counts take precedence over an error message; an error is shown as at most 50 characters between "Error: " and "..."; with neither the info is "" |
| RfiHistory.HistoryRows | legal-rfi-assistant/code/streamlit-app/app.py:805-832 | one row per document, in order, each built from its document |
| RfiHistory.HistoryShowsRecordedStatus | legal-rfi-assistant/code/streamlit-app/app.py:815-830 | a status written by the app reads back in its history row with its file name, status, user ("unknown" without one) and the counts or the cut error text |
| RfiExport.CreateWordDocument | legal-rfi-assistant/code/streamlit-app/app.py:543-593 | the export is the header followed by one section per result, in order |
| RfiExport.BoldTextsAppend | legal-rfi-assistant/code/streamlit-app/app.py:568-570 | the bold paragraphs of a concatenation are those of each part in order |
| RfiExport.ExportKeepsQuestionOrder | legal-rfi-assistant/code/streamlit-app/app.py:560-570 | the document's bold paragraphs are exactly the questions of the results, in report order |
| RfiExport.SeparatorCountAppend | legal-rfi-assistant/code/streamlit-app/app.py:589-593 | separators of a concatenation add up |
| RfiExport.ExportSeparators | legal-rfi-assistant/code/streamlit-app/app.py:589-593 | an export of n results has n - 1 separator lines, none for an empty report |
| RfiExport.ViewMatchesDocument | legal-rfi-assistant/code/streamlit-app/app.py:527-540 | the page and the document show the same answer text and a source in the same cases; the "nothing found" record shows the placeholder and no source |
| DocumentProcessor.Store.PutObject | legal-rfi-assistant/code/lambdas/document-processor-lambda/document_processor.py:87-92 | `put_object` stores the content under the key and changes nothing else |
| DocumentProcessor.Store.PutItem | legal-rfi-assistant/code/lambdas/document-processor-lambda/document_processor.py:98-107 | `put_item` stores the item under its id and changes nothing else |
| DocumentProcessor.Store.SetStatus | legal-rfi-assistant/code/lambdas/document-processor-lambda/document_processor.py:167-172 | `update_item` changes only the status of the existing item |
| DocumentProcessor.RoutePrecedence | legal-rfi-assistant/code/lambdas/document-processor-lambda/document_processor.py:32-46 | POST with 'process' goes to processing even when the path names 'documents'; upload only for POST without 'process'; GET only lists or misses; other methods reach nothing |
| DocumentProcessor.DocumentsPathNamesDocuments | legal-rfi-assistant/cdk/rfi_stack.py:439-441 | the `/documents` resource path contains 'documents' and not 'process' |
| DocumentProcessor.ProcessPathNamesProcess | legal-rfi-assistant/cdk/rfi_stack.py:443-444 | the `/process` resource path contains 'process' and not 'documents' |
| DocumentProcessor.RouteApiPaths | legal-rfi-assistant/code/lambdas/document-processor-lambda/document_processor.py:32-37 | POST and GET on /documents reach upload and listing, POST on /process reaches processing, GET on /process is not an endpoint |
| DocumentProcessor.Upload | legal-rfi-assistant/code/lambdas/document-processor-lambda/document_processor.py:60-131 | 400 without a non-empty fileName and fileContent, with nothing written; 500 with the error text for bad JSON or a failed store, with the table and bucket unchanged; else 200 with key `documents/{id}/{fileName}`, URL `s3://{bucket}/{key}`, status 'uploaded', username defaulting to 'anonymous' |
| DocumentProcessor.UploadAnswers | legal-rfi-assistant/code/lambdas/document-processor-lambda/document_processor.py:60-131 | an upload answers 200, 400 or 500 with the CORS headers; 200 exactly when the body has both fields and the object was stored; any other answer leaves table and bucket unchanged |
| DocumentProcessor.Process | legal-rfi-assistant/code/lambdas/document-processor-lambda/document_processor.py:134-207 | 400 without document_id, 404 for an unknown id, 500 for bad JSON or when `get_item` or the first status write raises, with nothing changed; 500 with the status left 'processing' when the second write raises; otherwise an id the table holds is set to 'processing' then 'completed' and 200 reports 'completed' |
| DocumentProcessor.ProcessAnswers | legal-rfi-assistant/code/lambdas/document-processor-lambda/document_processor.py:134-207 | processing answers 200, 400, 404 or 500 with the CORS headers; 200 exactly for a given id the table holds when the table does not raise; any other answer, except a failure between the two writes, changes no status |
| DocumentProcessor.UploadThenProcess | legal-rfi-assistant/code/lambdas/document-processor-lambda/document_processor.py:80-131 | processing the id a successful upload returned answers 200 and leaves that item, with its uploaded name and locator, 'completed' after 'processing' |
| DocumentProcessor.GetDocuments | legal-rfi-assistant/code/lambdas/document-processor-lambda/document_processor.py:210-243 | 500 with the error text when the query or scan raises; else 200 with the items; without a username they are sorted by timestamp descending (missing as '') stably, as a permutation; with one the index's answer is returned as is |
| DocumentProcessor.Handle | legal-rfi-assistant/code/lambdas/document-processor-lambda/document_processor.py:24-57 | every response has the JSON and CORS headers and status 200, 400, 404 or 500; a 500 carries an error body; a POST whose path names 'process' has exactly `process_document`'s outcome, another POST naming 'documents' exactly `upload_document`'s, a GET naming 'documents' the listing; no endpoint gives 404 and changes nothing; only an upload writes the bucket and only processing sets a status |
| AgentChatbot.SessionIdRoundTrip | advanced-rag-assistant/streamlit/agent_chatbot.py:36-45 | the id is `d0 c0 d1 d2 c1 '-' d3 c2`, 8 characters with '-' at index 5; the picks read back from it and every id of that shape comes from its own picks |
| AgentChatbot.FirstIndex | advanced-rag-assistant/streamlit/agent_chatbot.py:57 | the split point is the first '/' |
| AgentChatbot.FirstIndexAt | advanced-rag-assistant/streamlit/agent_chatbot.py:57 | a '/' with none before it is the split point |
| AgentChatbot.SplitUriOfUrl | advanced-rag-assistant/streamlit/agent_chatbot.py:57 | splitting `s3://B/K` with B free of '/' gives bucket B and key K, whatever K holds |
| AgentChatbot.AfterScheme | advanced-rag-assistant/streamlit/agent_chatbot.py:57 | `split('/', 2)[-1]` of `s3://rest` is `rest` |
| AgentChatbot.SplitOnceShape | advanced-rag-assistant/streamlit/agent_chatbot.py:57 | `split('/', 1)` into two parts cuts at a '/', the first part has none, and it fails exactly when there is no '/' |
| AgentChatbot.SplitUriShape | advanced-rag-assistant/streamlit/agent_chatbot.py:57 | a successful split names a bucket without '/' and ends the locator with bucket/key; it fails exactly when no '/' follows the bucket |
| AgentChatbot.LocalFileName | advanced-rag-assistant/streamlit/agent_chatbot.py:58 | the local name is the longest '/'-free suffix of the key |
| AgentChatbot.LocalFileNameOfKey | advanced-rag-assistant/streamlit/agent_chatbot.py:58 | a key ending in "/name" gives the local name "name" |
| AgentChatbot.FoldsAppend | advanced-rag-assistant/streamlit/agent_chatbot.py:101-109 | text parts and citations of a concatenated stream are those of each part in order: each element contributes on its own |
| AgentChatbot.TextPartsAppend | advanced-rag-assistant/streamlit/agent_chatbot.py:104-105 | the text parts of a concatenated stream are those of each part, in order |
| AgentChatbot.StreamCitationsAppend | advanced-rag-assistant/streamlit/agent_chatbot.py:107-109 | the citations of a concatenated stream are those of each part, in order |
| AgentChatbot.CitationsComeWithText | advanced-rag-assistant/streamlit/agent_chatbot.py:104-109 | one text part per element with bytes, and citations only when some element had text |
| AgentChatbot.FoldStream | advanced-rag-assistant/streamlit/agent_chatbot.py:98-109 | the nested loop returns the bytes of the elements that have them, in stream order, and the citations of those elements that carry `attribution.citations`, flattened in order |
| AgentChatbot.ReferenceUrisCount | advanced-rag-assistant/streamlit/agent_chatbot.py:119-131 | `urls` has one entry per retrieved reference across all citations |
| AgentChatbot.CollectUrls | advanced-rag-assistant/streamlit/agent_chatbot.py:116-131 | the loop succeeds exactly when every reference's file downloads, and then returns every locator in order |
| AgentChatbot.Downloads | advanced-rag-assistant/streamlit/agent_chatbot.py:55-60 | a download only succeeds for a locator that splits into a bucket and a key |
| AgentChatbot.ChatSession.constructor | advanced-rag-assistant/streamlit/agent_chatbot.py:65-71 | a new page has an empty history and the generated session id |
| AgentChatbot.ChatSession.Turn | advanced-rag-assistant/streamlit/agent_chatbot.py:81-137 | the user message is recorded first; the answer stored and shown is always the first text part with every cited locator; a stream without text, or a cited file that cannot be downloaded (its locator does not split, or the object cannot be read), or a failed write of the citation record ends the turn after the user message |

## Left out

- Every AWS call is an input (for the agent page, whether an object could be downloaded is the parameter `fetched`, whether the citation record could be written the parameter `stored`; for the history page, whether the scan raised is `scanFailed`; for the Lambda, a listing is a `Result` and a table failure while processing is a `TableFault`): Bedrock `invoke_model` and `retrieve_and_generate`, DynamoDB put/scan/query/update, S3 upload/download/put, Textract loading and the agent Lambda invocation. Each is treated as deterministic for a given request.
- Token chunking with `TokenTextSplitter` is a library call. The chunks are a given sequence, and a loader or splitter failure is a given error.
- Cognito sign-in, the password challenge and token checks are thin wrappers over the identity provider.
- Streamlit rendering, `st.rerun`, the spinners and the progress bar (float arithmetic) are not modelled.
- The Word file bytes, fonts and colours, the CSV export and the base64 download links are not modelled. The export is kept as its sequence of paragraphs.
- Base64 decoding and JSON encoding and decoding are not modelled:
  - a body that is not JSON is a given error;
  - stored metadata reads back as a map of decimal strings;
  - undecodable metadata is a given case.
- The clock, `uuid4` and `random.choice` are inputs. Timestamps are opaque strings compared the way Python compares `str`. The date reformatting of the history page is a parameter that may fail.
- RfiStatus.UpdateDocumentStatus: a failed `put_item` (the function then returns False after reporting) is not modelled. Every write succeeds.
- DynamoDB scan pagination is not modelled. A scan returns every item.
- `sort` works in place in the source. It is modelled as a function on the list, because the sorted list is all that is used afterwards.
- DocumentProcessor.Upload: a failure of `put_item` after the object was stored (a 500 with the object kept) is not modelled. `storeError` covers the decoding and `put_object` failures only.
- DocumentProcessor.Handle: a `path` that is `null` is not modelled, because method and path are strings. For a POST or a GET the routing test `'process' in path` would raise and the handler would answer 500; for any other method the test short-circuits and the answer is 404.
- DocumentProcessor.Upload and DocumentProcessor.Process: the body is decoded by `json.loads` inside each of them. A body that is not a string fails there like text that is not JSON (the `Malformed` case, 500). JSON values in the body that are not strings are dropped.
- DocumentProcessor.GetDocuments: the username index's own ordering is not modelled. Its answer is taken as given.
- AgentChatbot.ChatSession.Turn:
  - a missing `body` or `return_stream` in the agent's answer is not modelled;
  - the citation texts are displayed but not stored, so they are not modelled;
  - a reference without `location.s3Location.uri` raises `KeyError` and ends the turn after the user message. This is not modelled: every reference carries a locator, so the turn's failures are an undownloadable file, a stream without text and a failed citation write.
