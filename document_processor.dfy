/** The document-processor Lambda of
    legal-rfi-assistant/code/lambdas/document-processor-lambda/document_processor.py:
    request routing, upload validation and storage, the simulated
    processing step and the document listing. The table is a map from
    document id to item, the bucket a map from key to content; the new
    document id, the clock and the table's answer to a listing are
    inputs. */
module DocumentProcessor {
  import opened Wrappers
  import opened Text
  import opened Ordering
  import S3Uri

  /** The request body: absent (read as `'{}'`), a JSON object whose
      string-valued entries are kept, or text that is not JSON (the
      decoder's error message). */
  datatype RequestBody = Absent | Fields(fields: map<string, string>) | Malformed(error: string)

  /** The API Gateway event; a missing method or path reads as "". */
  datatype Event = Event(httpMethod: string, path: string, body: RequestBody, query: Option<map<string, string>>)

  /** A documents-table item. */
  datatype Item = Item(
    documentId: string, fileName: string, s3Url: string, status: string,
    timestamp: Option<string>, username: Option<string>)

  /** The JSON body of a response. */
  datatype ResponseBody =
    | ErrorBody(error: string)
    | UploadedBody(documentId: string, s3Url: string, status: string)
    | ProcessedBody(documentId: string, status: string, message: string)
    | DocumentsBody(documents: seq<Item>)

  datatype Response = Response(statusCode: int, headers: map<string, string>, body: ResponseBody)

  /** The headers every response carries. */
  const CorsHeaders: map<string, string> :=
    map["Content-Type" := "application/json", "Access-Control-Allow-Origin" := "*"]

  function Reply(statusCode: int, body: ResponseBody): Response {
    Response(statusCode, CorsHeaders, body)
  }

  /** The table and the bucket the Lambda writes. `statusLog` records
      every status update, in order. */
  class Store {
    var items: map<string, Item>
    var objects: map<string, string>
    ghost var statusLog: seq<(string, string)>

    constructor ()
      ensures items == map[] && objects == map[] && statusLog == []
    {
      items, objects, statusLog := map[], map[], [];
    }

    /** `s3_client.put_object` */
    method PutObject(key: string, content: string)
      modifies this
      ensures objects == old(objects)[key := content]
      ensures items == old(items) && statusLog == old(statusLog)
    {
      objects := objects[key := content];
    }

    /** `table.put_item` */
    method PutItem(item: Item)
      modifies this
      ensures items == old(items)[item.documentId := item]
      ensures objects == old(objects) && statusLog == old(statusLog)
    {
      items := items[item.documentId := item];
    }

    /** `table.update_item` setting `status` on an existing item. */
    method SetStatus(id: string, status: string)
      requires id in items
      modifies this
      ensures items == old(items)[id := old(items)[id].(status := status)]
      ensures objects == old(objects) && statusLog == old(statusLog) + [(id, status)]
    {
      items := items[id := items[id].(status := status)];
      statusLog := statusLog + [(id, status)];
    }
  }

  // ---------------------------------------------------------------------
  // Routing (`handler`)

  datatype Endpoint = ProcessDocument | UploadDocument | ListDocuments | NoEndpoint

  /** The handler's dispatch: the first of the three tests that holds. */
  function Route(httpMethod: string, path: string): Endpoint {
    if httpMethod == "POST" && Contains(path, "process") then ProcessDocument
    else if httpMethod == "POST" && Contains(path, "documents") then UploadDocument
    else if httpMethod == "GET" && Contains(path, "documents") then ListDocuments
    else NoEndpoint
  }

  /** "process" wins for a POST even when the path also names
      "documents"; a GET never reaches processing or upload; any other
      method reaches nothing. */
  lemma RoutePrecedence(httpMethod: string, path: string)
    ensures httpMethod == "POST" && Contains(path, "process") ==> Route(httpMethod, path) == ProcessDocument
    ensures Route(httpMethod, path) == UploadDocument ==> httpMethod == "POST" && !Contains(path, "process")
    ensures httpMethod == "GET" ==> Route(httpMethod, path) in {ListDocuments, NoEndpoint}
    ensures httpMethod != "POST" && httpMethod != "GET" ==> Route(httpMethod, path) == NoEndpoint
    ensures Route(httpMethod, path) != NoEndpoint ==> Contains(path, "process") || Contains(path, "documents")
  {
  }

  lemma DocumentsPathNamesDocuments()
    ensures Contains("/documents", "documents") && !Contains("/documents", "process")
  {
    assert "/documents"[1..] == "documents";
    assert StartsWith("documents", "documents");
    if Contains("uments", "process") {
      ContainsIsNoLonger("uments", "process");
    }
    assert "cuments"[1..] == "uments";
    NotContainsStep("cuments", "process");
    assert "ocuments"[1..] == "cuments";
    NotContainsStep("ocuments", "process");
    assert "documents"[1..] == "ocuments";
    NotContainsStep("documents", "process");
    NotContainsStep("/documents", "process");
  }

  lemma ProcessPathNamesProcess()
    ensures Contains("/process", "process") && !Contains("/process", "documents")
  {
    assert "/process"[1..] == "process";
    assert StartsWith("process", "process");
    if Contains("/process", "documents") {
      ContainsIsNoLonger("/process", "documents");
    }
  }

  /** The API's two resources: `/documents` answers POST (upload) and GET
      (listing), `/process` answers POST; a GET on `/process` is not an
      endpoint. */
  lemma RouteApiPaths()
    ensures Route("POST", "/documents") == UploadDocument
    ensures Route("GET", "/documents") == ListDocuments
    ensures Route("POST", "/process") == ProcessDocument
    ensures Route("GET", "/process") == NoEndpoint
  {
    DocumentsPathNamesDocuments();
    ProcessPathNamesProcess();
  }

  // ---------------------------------------------------------------------
  // Upload (`upload_document`)

  /** `body.get(name)` as a Python truth value: present and non-empty. */
  predicate Given(fields: map<string, string>, name: string) {
    name in fields && fields[name] != ""
  }

  function BodyFields(body: RequestBody): map<string, string>
    requires !body.Malformed?
  {
    if body.Absent? then map[] else body.fields
  }

  const MissingUploadFields: string := "fileName and fileContent are required"

  /** The object key of an uploaded document. */
  function DocumentKey(documentId: string, fileName: string): string {
    "documents/" + documentId + "/" + fileName
  }

  /** What `upload_document` answers and how it leaves the table
      (`items0` to `items1`) and the bucket (`objects0` to `objects1`):
      400 without a non-empty file name and content, before anything is
      written; otherwise the content is stored under
      `documents/{id}/{fileName}`, an item with status 'uploaded' (and the
      given username, 'anonymous' when the body has none) is put, and 200
      returns the id, the locator and the status. A storage failure
      (`storeError`: decoding or putting the object raised) and a body that
      is not JSON answer 500 with the error text and write nothing. */
  predicate UploadOutcome(body: RequestBody, bucket: string, newId: string, now: string, storeError: Option<string>,
                          items0: map<string, Item>, objects0: map<string, string>,
                          items1: map<string, Item>, objects1: map<string, string>, resp: Response)
  {
    (body.Malformed? ==>
       resp == Reply(500, ErrorBody(body.error)) && items1 == items0 && objects1 == objects0) &&
    (!body.Malformed? && !(Given(BodyFields(body), "fileName") && Given(BodyFields(body), "fileContent")) ==>
       resp == Reply(400, ErrorBody(MissingUploadFields)) && items1 == items0 && objects1 == objects0) &&
    (!body.Malformed? && Given(BodyFields(body), "fileName") && Given(BodyFields(body), "fileContent") ==>
       var f := BodyFields(body);
       var key := DocumentKey(newId, f["fileName"]);
       var url := S3Uri.Url(bucket, key);
       if storeError.Some? then
         resp == Reply(500, ErrorBody(storeError.value)) && items1 == items0 && objects1 == objects0
       else
         resp == Reply(200, UploadedBody(newId, url, "uploaded")) &&
         objects1 == objects0[key := f["fileContent"]] &&
         items1 == items0[newId := Item(newId, f["fileName"], url, "uploaded", Some(now),
                                        Some(if "username" in f then f["username"] else "anonymous"))])
  }

  /** `upload_document`. */
  method Upload(store: Store, body: RequestBody, bucket: string, newId: string, now: string, storeError: Option<string>)
    returns (resp: Response)
    modifies store
    ensures UploadOutcome(body, bucket, newId, now, storeError,
                          old(store.items), old(store.objects), store.items, store.objects, resp)
    ensures store.statusLog == old(store.statusLog)
  {
    if body.Malformed? {
      return Reply(500, ErrorBody(body.error));
    }
    var fields := BodyFields(body);
    var username := if "username" in fields then fields["username"] else "anonymous";
    if !Given(fields, "fileName") || !Given(fields, "fileContent") {
      return Reply(400, ErrorBody(MissingUploadFields));
    }
    var fileName := fields["fileName"];
    var key := DocumentKey(newId, fileName);
    if storeError.Some? {
      return Reply(500, ErrorBody(storeError.value));
    }
    store.PutObject(key, fields["fileContent"]);
    var url := S3Uri.Url(bucket, key);
    store.PutItem(Item(newId, fileName, url, "uploaded", Some(now), Some(username)));
    resp := Reply(200, UploadedBody(newId, url, "uploaded"));
  }

  /** Every upload answer carries the JSON and CORS headers; it succeeds
      exactly when the body is JSON with both fields given and the object
      could be stored, and any failure leaves the table as it was. */
  lemma UploadAnswers(body: RequestBody, bucket: string, newId: string, now: string, storeError: Option<string>,
                      items0: map<string, Item>, objects0: map<string, string>,
                      items1: map<string, Item>, objects1: map<string, string>, resp: Response)
    requires UploadOutcome(body, bucket, newId, now, storeError, items0, objects0, items1, objects1, resp)
    ensures resp.headers == CorsHeaders
    ensures resp.statusCode in {200, 400, 500} && (resp.statusCode == 500 ==> resp.body.ErrorBody?)
    ensures resp.statusCode == 200 <==>
              !body.Malformed? && Given(BodyFields(body), "fileName") && Given(BodyFields(body), "fileContent") &&
              storeError.None?
    ensures resp.statusCode != 200 ==> items1 == items0 && objects1 == objects0
  {
  }

  // ---------------------------------------------------------------------
  // Processing (`process_document`)

  const MissingDocumentId: string := "document_id is required"
  const DocumentNotFound: string := "Document not found"
  const ProcessedMessage: string := "Document processed successfully"

  /** Where the table raised while a document was processed: not at all,
      before anything was written (`get_item`, or the first status write),
      or between the two status writes. */
  datatype TableFault = NoFault | BeforeWrites(error: string) | BetweenWrites(error: string)

  /** What `process_document` answers and how it leaves the table and the
      status log: 400 without a non-empty `document_id`, 404 for an id
      the table does not hold; otherwise the status is set to
      'processing' and then to 'completed', and 200 reports 'completed'.
      A body that is not JSON, and a table that raises, answer 500 with
      the error text; a failure between the two writes leaves the status
      'processing'. */
  predicate ProcessOutcome(body: RequestBody, fault: TableFault, items0: map<string, Item>, log0: seq<(string, string)>,
                           items1: map<string, Item>, log1: seq<(string, string)>, resp: Response)
  {
    (body.Malformed? ==>
       resp == Reply(500, ErrorBody(body.error)) && items1 == items0 && log1 == log0) &&
    (!body.Malformed? && !Given(BodyFields(body), "document_id") ==>
       resp == Reply(400, ErrorBody(MissingDocumentId)) && items1 == items0 && log1 == log0) &&
    (!body.Malformed? && Given(BodyFields(body), "document_id") ==>
       var id := BodyFields(body)["document_id"];
       if fault.BeforeWrites? then
         resp == Reply(500, ErrorBody(fault.error)) && items1 == items0 && log1 == log0
       else if id !in items0 then
         resp == Reply(404, ErrorBody(DocumentNotFound)) && items1 == items0 && log1 == log0
       else if fault.BetweenWrites? then
         resp == Reply(500, ErrorBody(fault.error)) &&
         items1 == items0[id := items0[id].(status := "processing")] &&
         log1 == log0 + [(id, "processing")]
       else
         resp == Reply(200, ProcessedBody(id, "completed", ProcessedMessage)) &&
         items1 == items0[id := items0[id].(status := "completed")] &&
         log1 == log0 + [(id, "processing"), (id, "completed")])
  }

  /** `process_document`. */
  method Process(store: Store, body: RequestBody, fault: TableFault) returns (resp: Response)
    modifies store
    ensures ProcessOutcome(body, fault, old(store.items), old(store.statusLog), store.items, store.statusLog, resp)
    ensures store.objects == old(store.objects)
  {
    if body.Malformed? {
      return Reply(500, ErrorBody(body.error));
    }
    var fields := BodyFields(body);
    if !Given(fields, "document_id") {
      return Reply(400, ErrorBody(MissingDocumentId));
    }
    var id := fields["document_id"];
    if fault.BeforeWrites? {
      return Reply(500, ErrorBody(fault.error));
    }
    if id !in store.items {
      return Reply(404, ErrorBody(DocumentNotFound));
    }
    store.SetStatus(id, "processing");
    if fault.BetweenWrites? {
      return Reply(500, ErrorBody(fault.error));
    }
    store.SetStatus(id, "completed");
    resp := Reply(200, ProcessedBody(id, "completed", ProcessedMessage));
  }

  /** Every processing answer carries the JSON and CORS headers; it
      succeeds exactly for a given id the table holds when the table does
      not raise, and any other failure than one between the two writes
      leaves the table and the status log as they were. */
  lemma ProcessAnswers(body: RequestBody, fault: TableFault, items0: map<string, Item>, log0: seq<(string, string)>,
                       items1: map<string, Item>, log1: seq<(string, string)>, resp: Response)
    requires ProcessOutcome(body, fault, items0, log0, items1, log1, resp)
    ensures resp.headers == CorsHeaders
    ensures resp.statusCode in {200, 400, 404, 500} && (resp.statusCode == 500 ==> resp.body.ErrorBody?)
    ensures resp.statusCode == 200 <==>
              !body.Malformed? && Given(BodyFields(body), "document_id") && BodyFields(body)["document_id"] in items0 &&
              fault.NoFault?
    ensures resp.statusCode != 200 && !fault.BetweenWrites? ==> items1 == items0 && log1 == log0
  {
  }

  /** Uploading a document and then processing its id completes it: the
      id the upload answered is found, and its item, with the uploaded
      name and locator, ends with status 'completed' after 'processing'. */
  lemma UploadThenProcess(body: RequestBody, bucket: string, newId: string, now: string,
                          items0: map<string, Item>, objects0: map<string, string>,
                          items1: map<string, Item>, objects1: map<string, string>, uploaded: Response,
                          log1: seq<(string, string)>, items2: map<string, Item>, log2: seq<(string, string)>,
                          processed: Response)
    requires UploadOutcome(body, bucket, newId, now, None, items0, objects0, items1, objects1, uploaded)
    requires uploaded.statusCode == 200 && newId != ""
    requires ProcessOutcome(Fields(map["document_id" := newId]), NoFault, items1, log1, items2, log2, processed)
    ensures processed == Reply(200, ProcessedBody(newId, "completed", ProcessedMessage))
    ensures newId in items2 && items2[newId].status == "completed"
    ensures items2[newId].fileName == BodyFields(body)["fileName"]
    ensures items2[newId].s3Url == S3Uri.Url(bucket, DocumentKey(newId, BodyFields(body)["fileName"]))
    ensures log2 == log1 + [(newId, "processing"), (newId, "completed")]
  {
    UploadAnswers(body, bucket, newId, now, None, items0, objects0, items1, objects1, uploaded);
    assert Given(BodyFields(Fields(map["document_id" := newId])), "document_id");
  }

  // ---------------------------------------------------------------------
  // Listing (`get_documents`)

  /** The sort key of the listing: the timestamp, "" when missing. */
  function TimestampOrEmpty(item: Item): string {
    item.timestamp.GetOr("")
  }

  /** `get_documents`. With a non-empty `username` query parameter the
      table's username index answers, already newest first, and `listing`
      is that answer, returned as is; otherwise `listing` is the full scan
      and is sorted newest first, stably. A query or scan that raises
      (`listing` is a failure) answers 500 with the error text. */
  function GetDocuments(query: Option<map<string, string>>, listing: Result<seq<Item>>): (resp: Response)
    ensures resp.headers == CorsHeaders
    ensures listing.Failure? ==> resp == Reply(500, ErrorBody(listing.error))
    ensures listing.Success? ==> resp.statusCode == 200 && resp.body.DocumentsBody? &&
                                 multiset(resp.body.documents) == multiset(listing.value)
    ensures listing.Success? && !(query.Some? && Given(query.value, "username")) ==>
              SortedDesc(resp.body.documents, TimestampOrEmpty) &&
              forall k :: WithKey(resp.body.documents, TimestampOrEmpty, k) == WithKey(listing.value, TimestampOrEmpty, k)
    ensures listing.Success? && query.Some? && Given(query.value, "username") ==> resp.body.documents == listing.value
  {
    match listing
    case Failure(e) => Reply(500, ErrorBody(e))
    case Success(items) =>
      var params := if query.Some? then query.value else map[];
      if Given(params, "username") then Reply(200, DocumentsBody(items))
      else
        SortDescCorrect(items, TimestampOrEmpty);
        Reply(200, DocumentsBody(SortDesc(items, TimestampOrEmpty)))
  }

  // ---------------------------------------------------------------------
  // The handler

  const EndpointNotFound: string := "Endpoint not found"

  /** The inputs a request may consume besides the event: the id and clock
      reading of a new upload, the storage outcome, and the table's answer
      to a listing or the error it raised, and the table's failure during
      processing. */
  datatype Environment = Environment(bucket: string, newId: string, now: string, storeError: Option<string>, listing: Result<seq<Item>>,
                                   fault: TableFault)

  /** `handler`: route, then answer. Every response carries the JSON and
      CORS headers; a 500 always carries an error body; a request that
      matches no endpoint gets 404 and changes nothing; only an upload
      touches the bucket and only processing sets a status. */
  method Handle(store: Store, event: Event, env: Environment) returns (resp: Response)
    modifies store
    ensures resp.headers == CorsHeaders
    ensures resp.statusCode in {200, 400, 404, 500}
    ensures resp.statusCode == 500 ==> resp.body.ErrorBody?
    ensures Route(event.httpMethod, event.path) == ProcessDocument ==>
              ProcessOutcome(event.body, env.fault, old(store.items), old(store.statusLog), store.items, store.statusLog, resp)
    ensures Route(event.httpMethod, event.path) == UploadDocument ==>
              UploadOutcome(event.body, env.bucket, env.newId, env.now, env.storeError,
                            old(store.items), old(store.objects), store.items, store.objects, resp)
    ensures Route(event.httpMethod, event.path) == ListDocuments ==>
              resp == GetDocuments(event.query, env.listing) &&
              store.items == old(store.items) && store.objects == old(store.objects)
    ensures Route(event.httpMethod, event.path) == NoEndpoint ==>
              resp == Reply(404, ErrorBody(EndpointNotFound)) &&
              store.items == old(store.items) && store.objects == old(store.objects)
    ensures Route(event.httpMethod, event.path) != UploadDocument ==> store.objects == old(store.objects)
    ensures Route(event.httpMethod, event.path) != ProcessDocument ==> store.statusLog == old(store.statusLog)
  {
    ghost var items0, objects0, log0 := store.items, store.objects, store.statusLog;
    match Route(event.httpMethod, event.path)
    case ProcessDocument =>
      resp := Process(store, event.body, env.fault);
      ProcessAnswers(event.body, env.fault, items0, log0, store.items, store.statusLog, resp);
    case UploadDocument =>
      resp := Upload(store, event.body, env.bucket, env.newId, env.now, env.storeError);
      UploadAnswers(event.body, env.bucket, env.newId, env.now, env.storeError,
                    items0, objects0, store.items, store.objects, resp);
    case ListDocuments =>
      resp := GetDocuments(event.query, env.listing);
    case NoEndpoint =>
      resp := Reply(404, ErrorBody(EndpointNotFound));
  }
}
