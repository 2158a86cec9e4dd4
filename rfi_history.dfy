/** The history page of legal-rfi-assistant/code/streamlit-app/app.py:
    `get_document_history` (scan, per-user filter, conversion, newest-first
    sort) and the rows `display_history_tab` builds from it. The scan's
    answer, the JSON decoding of the metadata attribute and the date
    reformatting are inputs. */
module RfiHistory {
  import opened Wrappers
  import opened Text
  import opened Ordering
  import opened RfiStatus

  /** The decoded `metadata` attribute: a JSON object (its values as
      `str()` renders them) or some other JSON value. */
  datatype JsonMeta = Object(fields: map<string, string>) | NotAnObject

  /** The `metadata` attribute as read: decoded, or not decodable. */
  datatype MetadataAttr = Decoded(value: JsonMeta) | Undecodable

  /** A scanned table item: each string attribute may be missing. */
  datatype RawItem = RawItem(
    documentId: Option<string>,
    fileName: Option<string>,
    s3Url: Option<string>,
    status: Option<string>,
    timestamp: Option<string>,
    username: Option<string>,
    metadata: Option<MetadataAttr>)

  /** One entry of the history list. */
  datatype HistoryDoc = HistoryDoc(
    fileName: string,
    s3Url: string,
    status: string,
    timestamp: string,
    documentId: string,
    username: string,
    metadata: Option<JsonMeta>)

  /** The conversion of one scanned item: missing strings become "", a
      missing user "unknown", undecodable metadata an empty object. */
  function ToDoc(item: RawItem): HistoryDoc {
    HistoryDoc(
      item.fileName.GetOr(""), item.s3Url.GetOr(""), item.status.GetOr(""),
      item.timestamp.GetOr(""), item.documentId.GetOr(""), item.username.GetOr("unknown"),
      match item.metadata
      case None => None
      case Some(Undecodable) => Some(Object(map[]))
      case Some(Decoded(v)) => Some(v))
  }

  /** Every item converted, in order. */
  function Converted(items: seq<RawItem>): seq<HistoryDoc> {
    seq(|items|, k requires 0 <= k < |items| => ToDoc(items[k]))
  }

  /** The conversion loop of `get_document_history`. */
  method ConvertItems(items: seq<RawItem>) returns (docs: seq<HistoryDoc>)
    ensures docs == Converted(items)
  {
    docs := [];
    for i := 0 to |items|
      invariant |docs| == i
      invariant forall k :: 0 <= k < i ==> docs[k] == ToDoc(items[k])
    {
      docs := docs + [ToDoc(items[i])];
    }
  }

  function Timestamp(d: HistoryDoc): string { d.timestamp }

  /** An administrator has the identity attribute `custom:role` equal to
      "admin". */
  predicate IsAdmin(user: UserInfo) {
    "custom:role" in user.attributes && user.attributes["custom:role"] == "admin"
  }

  /** The items the scan returns for the session's user: all of them for
      an administrator or when no user is signed in, else those whose
      `username` is the user's. A signed-in non-administrator without a
      username makes the scan request invalid, which the page reports as
      an empty history. */
  function Visible(user: Option<UserInfo>, table: seq<RawItem>): Option<seq<RawItem>> {
    if user.None? || IsAdmin(user.value) then Some(table)
    else if user.value.username.None? then None
    else Some(OwnedBy(table, user.value.username.value))
  }

  /** The scan's filter `username = :username`, in scan order: every
      item of the user's, as often as the table holds it, and no other. */
  function OwnedBy(table: seq<RawItem>, username: string): (r: seq<RawItem>)
    ensures multiset(r) <= multiset(table)
    ensures forall x :: multiset(r)[x] == if x.username == Some(username) then multiset(table)[x] else 0
    ensures forall k :: 0 <= k < |r| ==> r[k].username == Some(username)
    ensures forall k :: 0 <= k < |table| && table[k].username == Some(username) ==> table[k] in r
  {
    if table == [] then []
    else
      assert table == [table[0]] + table[1..];
      (if table[0].username == Some(username) then [table[0]] else []) + OwnedBy(table[1..], username)
  }

  /** The filter keeps scan order: filtering two consecutive stretches of
      the table gives the first stretch's items, then the second's. */
  lemma {:induction false} OwnedByAppend(a: seq<RawItem>, b: seq<RawItem>, username: string)
    ensures OwnedBy(a + b, username) == OwnedBy(a, username) + OwnedBy(b, username)
    decreases |a|
  {
    if a == [] {
      assert a + b == b;
    } else {
      assert (a + b)[0] == a[0] && (a + b)[1..] == a[1..] + b;
      OwnedByAppend(a[1..], b, username);
    }
  }

  /** `get_document_history`, given the table's items in scan order: the
      visible items, converted, newest first (a stable sort, so items with
      equal timestamps keep their scan order). A scan that raises
      (`scanFailed`) is reported and gives an empty history. */
  method GetDocumentHistory(user: Option<UserInfo>, table: seq<RawItem>, scanFailed: bool) returns (docs: seq<HistoryDoc>)
    ensures scanFailed || Visible(user, table).None? ==> docs == []
    ensures !scanFailed && Visible(user, table).Some? ==> docs == SortDesc(Converted(Visible(user, table).value), Timestamp)
    ensures !scanFailed && Visible(user, table).Some? ==> multiset(docs) == multiset(Converted(Visible(user, table).value))
    ensures SortedDesc(docs, Timestamp)
    ensures !scanFailed && (user.None? || IsAdmin(user.value)) ==> |docs| == |table|
    ensures user.Some? && !IsAdmin(user.value) && user.value.username.Some? ==>
              forall k :: 0 <= k < |docs| ==> docs[k].username == user.value.username.value
  {
    var visible := Visible(user, table);
    if scanFailed || visible.None? {
      return [];
    }
    var converted := ConvertItems(visible.value);
    docs := SortDesc(converted, Timestamp);
    SortDescCorrect(converted, Timestamp);
    assert |docs| == |converted| by {
      assert |multiset(docs)| == |multiset(converted)|;
    }
    if user.Some? && !IsAdmin(user.value) && user.value.username.Some? {
      forall k | 0 <= k < |docs| ensures docs[k].username == user.value.username.value {
        assert docs[k] in multiset(converted);
        var j :| 0 <= j < |converted| && converted[j] == docs[k];
      }
    }
  }

  // ---------------------------------------------------------------------
  // History rows (`display_history_tab`)

  /** The "Processing Info" column: chunk counts (and answers found) when
      the metadata has both counts, else the error message cut to fifty
      characters and followed by "...", else nothing. */
  function ProcessingInfo(meta: Option<JsonMeta>): string {
    if meta.None? || meta.value.NotAnObject? then ""
    else
      var f := meta.value.fields;
      if "chunks_processed" in f && "total_chunks" in f then
        "Processed " + f["chunks_processed"] + "/" + f["total_chunks"] + " chunks"
        + (if "answers_found" in f then ", " + f["answers_found"] + " answers found" else "")
      else if "error_message" in f then "Error: " + Take(f["error_message"], 50) + "..."
      else ""
  }

  const ErrorPrefix: string := "Error: "
  const CountsPrefix: string := "Processed "

  /** The info column's three cases: counts win over an error message, an
      error message is shown as at most fifty characters between
      "Error: " and "...", and with neither the column is empty. */
  lemma ProcessingInfoCases(fields: map<string, string>)
    ensures "chunks_processed" in fields && "total_chunks" in fields ==>
              StartsWith(ProcessingInfo(Some(Object(fields))), CountsPrefix)
    ensures !("chunks_processed" in fields && "total_chunks" in fields) && "error_message" in fields ==>
              var info := ProcessingInfo(Some(Object(fields)));
              var msg := fields["error_message"];
              StartsWith(info, ErrorPrefix) && StartsWith(msg, info[|ErrorPrefix|..|info| - 3]) &&
              |info| == |ErrorPrefix| + (if |msg| < 50 then |msg| else 50) + 3 &&
              info[|info| - 3..] == "..."
    ensures !("chunks_processed" in fields && "total_chunks" in fields) && "error_message" !in fields ==>
              ProcessingInfo(Some(Object(fields))) == ""
  {
    if !("chunks_processed" in fields && "total_chunks" in fields) && "error_message" in fields {
      var info := ProcessingInfo(Some(Object(fields)));
      var cut := Take(fields["error_message"], 50);
      assert info == ErrorPrefix + cut + "...";
      assert info[|ErrorPrefix|..|info| - 3] == cut;
    }
  }

  /** One row of the history table. */
  datatype HistoryRow = HistoryRow(fileName: string, status: string, time: string, info: string, user: string)

  /** The row for one document; `reformat` is the date reformatting, which
      gives nothing when the timestamp is not an ISO 8601 date, in which
      case the raw timestamp is shown. */
  function Row(d: HistoryDoc, reformat: string -> Option<string>): HistoryRow {
    HistoryRow(d.fileName, d.status, reformat(d.timestamp).GetOr(d.timestamp), ProcessingInfo(d.metadata), d.username)
  }

  /** The row loop of `display_history_tab`. */
  method HistoryRows(docs: seq<HistoryDoc>, reformat: string -> Option<string>) returns (rows: seq<HistoryRow>)
    ensures |rows| == |docs|
    ensures forall k :: 0 <= k < |docs| ==> rows[k] == Row(docs[k], reformat)
  {
    rows := [];
    for i := 0 to |docs|
      invariant |rows| == i
      invariant forall k :: 0 <= k < i ==> rows[k] == Row(docs[k], reformat)
    {
      rows := rows + [Row(docs[i], reformat)];
    }
  }

  // ---------------------------------------------------------------------
  // What the history shows of a run

  /** The JSON object the metadata dictionary of a run is stored as. */
  function MetadataFields(m: RunMetadata): map<string, string> {
    match m
    case Counts(p, t, a) => map["chunks_processed" := Decimal(p), "total_chunks" := Decimal(t), "answers_found" := Decimal(a)]
    case ErrorInfo(e) => map["error_message" := e]
  }

  /** How an item written by `update_document_status` comes back from a
      scan. */
  function Stored(item: StatusItem): RawItem {
    RawItem(Some(item.documentId), Some(item.fileName), Some(item.s3Url), Some(item.status),
            Some(item.timestamp), item.username,
            if item.metadata.Some? then Some(Decoded(Object(MetadataFields(item.metadata.value)))) else None)
  }

  /** Writing a status and reading it back in the history: the row shows
      the file name, status and user written (or "unknown" when no user
      was signed in), and the counts of a completed run or the cut error
      text of a failed one. */
  lemma HistoryShowsRecordedStatus(item: StatusItem, reformat: string -> Option<string>)
    ensures var row := Row(ToDoc(Stored(item)), reformat);
            row.fileName == item.fileName && row.status == item.status &&
            row.user == (if item.username.Some? then item.username.value else "unknown")
    ensures item.metadata.Some? && item.metadata.value.Counts? ==>
              var m := item.metadata.value;
              Row(ToDoc(Stored(item)), reformat).info ==
                "Processed " + Decimal(m.chunksProcessed) + "/" + Decimal(m.totalChunks) + " chunks, "
                + Decimal(m.answersFound) + " answers found"
    ensures item.metadata.Some? && item.metadata.value.ErrorInfo? ==>
              Row(ToDoc(Stored(item)), reformat).info == "Error: " + Take(item.metadata.value.errorMessage, 50) + "..."
    ensures item.metadata.None? ==> Row(ToDoc(Stored(item)), reformat).info == ""
  {
    var doc := ToDoc(Stored(item));
    if item.metadata.Some? {
      assert doc.metadata == Some(Object(MetadataFields(item.metadata.value)));
      StoredInfo(item.metadata.value);
    } else {
      assert doc.metadata.None?;
    }
  }

  /** The info column of a run's stored metadata. */
  lemma StoredInfo(m: RunMetadata)
    ensures m.Counts? ==>
              ProcessingInfo(Some(Object(MetadataFields(m)))) ==
                "Processed " + Decimal(m.chunksProcessed) + "/" + Decimal(m.totalChunks) + " chunks, "
                + Decimal(m.answersFound) + " answers found"
    ensures m.ErrorInfo? ==>
              ProcessingInfo(Some(Object(MetadataFields(m)))) == "Error: " + Take(m.errorMessage, 50) + "..."
  {
    var f := MetadataFields(m);
    if m.Counts? {
      assert "chunks_processed" in f && "total_chunks" in f && "answers_found" in f;
    } else {
      assert !("chunks_processed" in f) && "error_message" in f;
    }
  }
}
