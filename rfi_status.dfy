/** The run-status record that the RFI app keeps per uploaded document
    (`update_document_status` in legal-rfi-assistant/code/streamlit-app/app.py):
    the item it writes and the table it writes to. */
module RfiStatus {
  import opened Wrappers

  /** The four status strings a run goes through:
      UPLOADED, then PROCESSING, then COMPLETED or ERROR. */
  datatype RunStatus = Uploaded | Processing | Completed | Error {
    function Name(): string {
      match this
      case Uploaded => "UPLOADED"
      case Processing => "PROCESSING"
      case Completed => "COMPLETED"
      case Error => "ERROR"
    }
  }

  /** The metadata dictionary attached to a terminal status. */
  datatype RunMetadata =
    | Counts(chunksProcessed: nat, totalChunks: nat, answersFound: nat)
    | ErrorInfo(errorMessage: string)

  /** The signed-in user's information kept in the session: the optional
      `username` and the identity provider's attributes. */
  datatype UserInfo = UserInfo(username: Option<string>, attributes: map<string, string>)

  /** One item of the documents table as the app writes it. */
  datatype StatusItem = StatusItem(
    documentId: string,
    fileName: string,
    s3Url: string,
    status: string,
    timestamp: string,
    username: Option<string>,
    metadata: Option<RunMetadata>)

  /** The item `update_document_status` puts: the five string attributes,
      the user's name (or "unknown") only when a user is signed in, and the
      metadata only when given. */
  function BuildStatusItem(
    documentId: string, fileName: string, s3Url: string, status: RunStatus,
    timestamp: string, user: Option<UserInfo>, metadata: Option<RunMetadata>): (item: StatusItem)
    ensures item.documentId == documentId && item.status == status.Name()
    ensures item.fileName == fileName && item.s3Url == s3Url && item.timestamp == timestamp
    ensures item.username.Some? <==> user.Some?
    ensures user.Some? && user.value.username.Some? ==> item.username == user.value.username
    ensures user.Some? && user.value.username.None? ==> item.username == Some("unknown")
    ensures item.metadata == metadata
  {
    StatusItem(
      documentId, fileName, s3Url, status.Name(), timestamp,
      if user.Some? then Some(user.value.username.GetOr("unknown")) else None,
      metadata)
  }

  /** The documents table, keyed by document id. `log` records every
      item put, in order. */
  class StatusTable {
    var items: map<string, StatusItem>
    ghost var log: seq<StatusItem>

    constructor ()
      ensures items == map[] && log == []
    {
      items := map[];
      log := [];
    }

    /** `put_item`: replaces the whole item stored under its id. */
    method Put(item: StatusItem)
      modifies this
      ensures items == old(items)[item.documentId := item]
      ensures log == old(log) + [item]
    {
      items := items[item.documentId := item];
      log := log + [item];
    }
  }

  /** `update_document_status`: build the item and put it. */
  method UpdateDocumentStatus(
    table: StatusTable, documentId: string, fileName: string, s3Url: string,
    status: RunStatus, timestamp: string, user: Option<UserInfo>, metadata: Option<RunMetadata>)
    modifies table
    ensures table.items == old(table.items)[documentId := BuildStatusItem(documentId, fileName, s3Url, status, timestamp, user, metadata)]
    ensures table.log == old(table.log) + [BuildStatusItem(documentId, fileName, s3Url, status, timestamp, user, metadata)]
  {
    var item := BuildStatusItem(documentId, fileName, s3Url, status, timestamp, user, metadata);
    table.Put(item);
  }
}
