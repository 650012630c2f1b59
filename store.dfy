/** The handlers of app.py that read and write the Supabase store. The
    store is a value (the `documents` bucket, the two tables, and the log
    of writes in the order they were made); each handler is a step from
    one store value to the next with its reply, and `Backend` is the
    server object that holds the store and runs the steps in place.

    Any store call may raise. `succeeding` says how many of a handler's
    store calls complete before one raises; the handler's
    `except Exception` then answers 500, and the writes already made stay. */
module Store {
  import opened Wrappers
  import opened Text
  import opened Schema
  import opened Api

  datatype StoredObject = StoredObject(content: seq<bv8>, contentType: string)

  /** A write to the store. */
  datatype Write =
    | UploadObject(key: string)
    | InsertDocument(id: string)
    | InsertComment(id: string)
    | DeleteComments(documentId: string)
    | RemoveObject(key: string)
    | DeleteDocument(id: string)

  datatype StoreState = StoreState(
    bucket: map<string, StoredObject>,
    documents: map<string, DocumentRow>,
    comments: seq<CommentRow>,
    writes: seq<Write>)

  /** A reply: its HTTP status and its JSON (or file) body. */
  datatype Reply = Reply(status: nat, body: ReplyBody)

  datatype ReplyBody =
    | ErrorBody(failure: Failure)
    | DocumentBody(doc: DocumentRow)
    | CommentBody(comment: CommentRow)
    | MessageBody(message: string)
    | FileBody(download: Download)

  datatype Outcome = Outcome(state: StoreState, reply: Reply)

  function FailureReply(f: Failure): (r: Reply)
    ensures r.status == 400 || r.status == 500
  {
    Reply(Status(f), ErrorBody(f))
  }

  const Deleted := "Documento excluído com sucesso"

  /** Every row's object is in the bucket, and no two rows share an object. */
  predicate Consistent(s: StoreState) {
    && (forall id :: id in s.documents ==> StorageKeyOf(s.documents[id].fileUrl) in s.bucket)
    && (forall id, id' :: id in s.documents && id' in s.documents && id != id' ==>
          StorageKeyOf(s.documents[id].fileUrl) != StorageKeyOf(s.documents[id'].fileUrl))
  }

  // ---------------------------------------------------------------------
  // POST /api/documents

  /** The store calls of `upload_document` for a document that passed the
      checks: the object is uploaded under its key (the store refuses a key
      that is taken), the object's public URL is built, and the row is
      inserted under the id the database draws (`newId`; an id that is
      taken is refused). */
  function StoreUpload(s: StoreState, prefix: string, d: NewDocument, newId: string, succeeding: nat): (r: Outcome)
    ensures r.state.comments == s.comments
  {
    if succeeding == 0 || d.storageKey in s.bucket then Outcome(s, FailureReply(ServerError))
    else
      var s1 := s.(bucket := s.bucket[d.storageKey := StoredObject(d.file.content, d.file.contentType)],
                   writes := s.writes + [UploadObject(d.storageKey)]);
      if succeeding == 1 || newId in s.documents then Outcome(s1, FailureReply(ServerError))
      else
        var row := DocumentRow(newId, d.title, d.description, PublicUrl(prefix, d.storageKey), d.fileName, d.fileType);
        Outcome(s1.(documents := s.documents[newId := row], writes := s1.writes + [InsertDocument(newId)]),
                Reply(201, DocumentBody(row)))
  }

  /** `upload_document`, with the extension taken from the whitelisted name
      (see ValidateUpload): a rejected request touches nothing. */
  function UploadStep(s: StoreState, prefix: string, req: UploadRequest, sanitize: string -> string,
                      uuid: string, newId: string, succeeding: nat): (r: Outcome)
    ensures r.state.comments == s.comments
  {
    match ValidateUpload(req, sanitize, uuid)
    case Err(f) => Outcome(s, FailureReply(f))
    case Ok(d) => StoreUpload(s, prefix, d, newId, succeeding)
  }

  /** `upload_document` as app.py writes it: the extension is taken from
      the sanitised name (see ValidateUploadAsWritten), so a name the
      sanitiser leaves without '.' is answered 500 before any store call. */
  function UploadStepAsWritten(s: StoreState, prefix: string, req: UploadRequest, sanitize: string -> string,
                               uuid: string, newId: string, succeeding: nat): (r: Outcome)
    ensures r.state.comments == s.comments
  {
    match ValidateUploadAsWritten(req, sanitize, uuid)
    case Err(f) => Outcome(s, FailureReply(f))
    case Ok(d) => StoreUpload(s, prefix, d, newId, succeeding)
  }

  /** The upload as written and the corrected one: both refuse the same
      requests with the same 400; where the sanitiser keeps the last
      extension they make the same store calls; where it leaves no '.',
      the one as written answers 500 and stores nothing, while the
      corrected one goes on to the store calls. */
  lemma {:induction false} UploadAsWrittenOutcomes(s: StoreState, prefix: string, req: UploadRequest,
                                                   sanitize: string -> string, uuid: string, newId: string, succeeding: nat)
    ensures CheckUpload(req).Err? ==>
      UploadStepAsWritten(s, prefix, req, sanitize, uuid, newId, succeeding)
        == UploadStep(s, prefix, req, sanitize, uuid, newId, succeeding)
        == Outcome(s, Reply(400, ErrorBody(CheckUpload(req).error)))
    ensures CheckUpload(req).Ok? && '.' !in sanitize(req.files["file"].filename) ==>
      && UploadStepAsWritten(s, prefix, req, sanitize, uuid, newId, succeeding) == Outcome(s, Reply(500, ErrorBody(ServerError)))
      && UploadStep(s, prefix, req, sanitize, uuid, newId, succeeding)
           == StoreUpload(s, prefix, ValidateUpload(req, sanitize, uuid).value, newId, succeeding)
    ensures && CheckUpload(req).Ok?
            && '.' in sanitize(req.files["file"].filename)
            && AfterLast(sanitize(req.files["file"].filename), '.') == AfterLast(req.files["file"].filename, '.')
            ==>
      UploadStepAsWritten(s, prefix, req, sanitize, uuid, newId, succeeding)
        == UploadStep(s, prefix, req, sanitize, uuid, newId, succeeding)
  {
    if CheckUpload(req).Ok? {
      var name := req.files["file"].filename;
      if '.' !in sanitize(name) {
        UploadAsWrittenFailsWithoutDot(req, sanitize, uuid);
      } else if AfterLast(sanitize(name), '.') == AfterLast(name, '.') {
        UploadFixAgreesWhenExtensionKept(req, sanitize, uuid);
      }
    }
  }

  /** The store calls of an accepted upload answer 201 exactly when both
      complete and the key and the id are free; the bucket then holds the
      file under the key and the table the row, whose URL leads back to the
      key. Otherwise the reply is 500 and the table is as it was. */
  lemma {:induction false} StoreUploadOutcomes(s: StoreState, prefix: string, d: NewDocument, newId: string, succeeding: nat)
    requires '/' !in d.storageKey
    ensures var r := StoreUpload(s, prefix, d, newId, succeeding);
      && (r.reply.status == 201 <==> succeeding >= 2 && d.storageKey !in s.bucket && newId !in s.documents)
      && (r.reply.status != 201 ==> r.reply == FailureReply(ServerError) && r.state.documents == s.documents)
      && (r.reply.status == 201 ==>
            && r.state.bucket == s.bucket[d.storageKey := StoredObject(d.file.content, d.file.contentType)]
            && r.state.documents == s.documents[newId := r.reply.body.doc]
            && r.reply.body.doc == DocumentRow(newId, d.title, d.description, r.reply.body.doc.fileUrl, d.fileName, d.fileType)
            && StorageKeyOf(r.reply.body.doc.fileUrl) == d.storageKey)
  {
    StorageKeyOfPublicUrl(prefix, d.storageKey);
  }

  /** The replies of an upload: a request that fails the checks answers 400
      with the check's message and changes nothing; one that passes them is
      stored as StoreUploadOutcomes says, under a key without '/' when the
      drawn uuid has none. */
  lemma {:induction false} UploadOutcomes(s: StoreState, prefix: string, req: UploadRequest,
                                          sanitize: string -> string, uuid: string, newId: string, succeeding: nat)
    requires '/' !in uuid
    ensures var r := UploadStep(s, prefix, req, sanitize, uuid, newId, succeeding);
      && (CheckUpload(req).Err? ==> r == Outcome(s, Reply(400, ErrorBody(CheckUpload(req).error))))
      && (CheckUpload(req).Ok? ==>
            var d := ValidateUpload(req, sanitize, uuid).value;
            && r == StoreUpload(s, prefix, d, newId, succeeding)
            && '/' !in d.storageKey
            && d.file == req.files["file"])
  {
    var v := ValidateUpload(req, sanitize, uuid);
    if v.Ok? {
      UploadAccepted(req, sanitize, uuid);
      KeyHasNoSlash(uuid, v.value.fileType);
    }
  }

  /** An upload whose row insert raises leaves its object in the bucket
      with no row pointing at it. */
  lemma {:induction false} UploadInterruptedLeavesOrphan(s: StoreState, prefix: string, d: NewDocument, newId: string)
    requires d.storageKey !in s.bucket
    ensures var r := StoreUpload(s, prefix, d, newId, 1);
      && r.reply.status == 500
      && r.state.documents == s.documents
      && d.storageKey in r.state.bucket
      && r.state.writes == s.writes + [UploadObject(d.storageKey)]
  {
  }

  lemma {:induction false} KeyHasNoSlash(uuid: string, ext: string)
    requires '/' !in uuid && ext in AllowedExtensions
    ensures '/' !in uuid + "." + ext
  {
    var k := uuid + "." + ext;
    assert forall i :: 0 <= i < |k| ==> k[i] == if i < |uuid| then uuid[i] else (("." + ext)[i - |uuid|]);
  }

  /** A completed upload keeps the store consistent, provided its key has
      no '/' (UploadOutcomes: the drawn uuid has none). */
  lemma {:induction false} UploadKeepsConsistent(s: StoreState, prefix: string, d: NewDocument, newId: string, succeeding: nat)
    requires Consistent(s) && '/' !in d.storageKey
    ensures StoreUpload(s, prefix, d, newId, succeeding).reply.status == 201 ==>
      Consistent(StoreUpload(s, prefix, d, newId, succeeding).state)
  {
    var r := StoreUpload(s, prefix, d, newId, succeeding);
    if r.reply.status == 201 {
      StoreUploadOutcomes(s, prefix, d, newId, succeeding);
      var t := r.state;
      forall id | id in t.documents
        ensures StorageKeyOf(t.documents[id].fileUrl) in t.bucket
      {
        if id != newId { assert t.documents[id] == s.documents[id]; }
      }
      forall id, id' | id in t.documents && id' in t.documents && id != id'
        ensures StorageKeyOf(t.documents[id].fileUrl) != StorageKeyOf(t.documents[id'].fileUrl)
      {
        if id == newId {
          assert StorageKeyOf(s.documents[id'].fileUrl) in s.bucket;
        } else if id' == newId {
          assert StorageKeyOf(s.documents[id].fileUrl) in s.bucket;
        } else {
          assert t.documents[id] == s.documents[id] && t.documents[id'] == s.documents[id'];
        }
      }
    }
  }

  // ---------------------------------------------------------------------
  // POST /api/documents/<doc_id>/comments

  /** The insert of a comment that passed the check. */
  function StoreComment(s: StoreState, c: NewComment, newId: string, succeeding: nat): (r: Outcome)
    ensures r.state.bucket == s.bucket && r.state.documents == s.documents
  {
    if succeeding == 0 then Outcome(s, FailureReply(ServerError))
    else
      var row := CommentRow(newId, c.documentId, c.content);
      Outcome(s.(comments := s.comments + [row], writes := s.writes + [InsertComment(newId)]),
              Reply(201, CommentBody(row)))
  }

  /** `add_comment`: a rejected comment touches nothing; an accepted one is
      inserted, stripped, under the document id of the URL. The handler
      does not look the document up. */
  function CommentStep(s: StoreState, docId: string, body: Option<Json>, newId: string, succeeding: nat): (r: Outcome)
    ensures r.state.bucket == s.bucket && r.state.documents == s.documents
  {
    match ValidateComment(docId, body)
    case Err(f) => Outcome(s, FailureReply(f))
    case Ok(c) => StoreComment(s, c, newId, succeeding)
  }

  /** A comment is stored exactly when it passes the check and the insert
      completes; it is appended after the existing comments, and nothing
      else in the store changes. */
  lemma {:induction false} CommentOutcomes(s: StoreState, docId: string, body: Option<Json>, newId: string, succeeding: nat)
    ensures var r := CommentStep(s, docId, body, newId, succeeding);
      && (r.reply.status == 201 <==> ValidateComment(docId, body).Ok? && succeeding > 0)
      && (r.reply.status == 201 ==>
            && r.state.comments == s.comments + [r.reply.body.comment]
            && r.reply.body.comment == CommentRow(newId, docId, ValidateComment(docId, body).value.content))
      && (r.reply.status != 201 ==> r.state == s)
      && (Consistent(s) ==> Consistent(r.state))
  {
  }

  // ---------------------------------------------------------------------
  // GET /api/documents/<doc_id>/download

  /** `download_document`: the row is read (the read raises on an unknown
      id), the file is fetched from its URL (`fetched` is the outcome), and
      the bytes are served with the row's type and name. */
  function DownloadStep(s: StoreState, id: string, fetched: Option<seq<bv8>>, succeeding: nat): (r: Reply)
    ensures r.status == 200 <==> succeeding > 0 && id in s.documents && fetched.Some?
    ensures r.status == 200 ==>
      && r.body == FileBody(Download(fetched.value, Disposition(s.documents[id].fileName), ContentType(s.documents[id].fileType)))
    ensures r.status != 200 ==> r == FailureReply(ServerError)
  {
    var doc := if succeeding > 0 && id in s.documents then Some(s.documents[id]) else None;
    match DownloadReply(doc, fetched)
    case Ok(file) => Reply(200, FileBody(file))
    case Err(f) => FailureReply(f)
  }

  // ---------------------------------------------------------------------
  // DELETE /api/documents/<doc_id>

  /** The comments left after `delete().eq('document_id', id)`: those of
      other documents. */
  function WithoutComments(comments: seq<CommentRow>, documentId: string): (r: seq<CommentRow>)
    ensures forall c :: c in r <==> c in comments && c.documentId != documentId
    ensures |r| <= |comments|
    ensures (forall c :: c in comments ==> c.documentId != documentId) ==> r == comments
  {
    if comments == [] then []
    else
      var rest := WithoutComments(comments[1..], documentId);
      assert comments == [comments[0]] + comments[1..];
      if comments[0].documentId == documentId then rest else [comments[0]] + rest
  }

  /** The writes of a delete, in the order the handler makes them. */
  function DeleteWrites(id: string, key: string): seq<Write> {
    [DeleteComments(id), RemoveObject(key), DeleteDocument(id)]
  }

  /** `delete_document`: the row is read (the read raises on an unknown id),
      then the document's comments are deleted, then the object whose key
      is the last '/' segment of the row's URL, then the row. */
  function DeleteStep(s: StoreState, id: string, succeeding: nat): (r: Outcome) {
    if id !in s.documents || succeeding == 0 then Outcome(s, FailureReply(ServerError))
    else
      var key := StorageKeyOf(s.documents[id].fileUrl);
      if succeeding == 1 then Outcome(s, FailureReply(ServerError))
      else
        var s1 := s.(comments := WithoutComments(s.comments, id), writes := s.writes + [DeleteComments(id)]);
        if succeeding == 2 then Outcome(s1, FailureReply(ServerError))
        else
          var s2 := s1.(bucket := s1.bucket - {key}, writes := s1.writes + [RemoveObject(key)]);
          if succeeding == 3 then Outcome(s2, FailureReply(ServerError))
          else
            Outcome(s2.(documents := s2.documents - {id}, writes := s2.writes + [DeleteDocument(id)]),
                    Reply(200, MessageBody(Deleted)))
  }

  function Min(a: nat, b: nat): nat {
    if a < b then a else b
  }

  /** A delete makes its three writes in order and stops at the first store
      call that raises: the writes made are a prefix of the three, each
      made write has taken effect, and only a delete that makes all three
      answers 200. */
  lemma {:induction false} DeleteOutcomes(s: StoreState, id: string, succeeding: nat)
    ensures var r := DeleteStep(s, id, succeeding);
      && (id !in s.documents || succeeding == 0 ==> r == Outcome(s, FailureReply(ServerError)))
      && (id in s.documents && succeeding > 0 ==>
            var key := StorageKeyOf(s.documents[id].fileUrl);
            var done := Min(succeeding - 1, 3);
            && r.state.writes == s.writes + DeleteWrites(id, key)[..done]
            && r.state.comments == (if done >= 1 then WithoutComments(s.comments, id) else s.comments)
            && r.state.bucket == (if done >= 2 then s.bucket - {key} else s.bucket)
            && r.state.documents == (if done == 3 then s.documents - {id} else s.documents)
            && (r.reply.status == 200 <==> done == 3)
            && (r.reply.status != 200 ==> r.reply == FailureReply(ServerError)))
  {
    if id in s.documents && succeeding > 0 {
      var steps := DeleteWrites(id, StorageKeyOf(s.documents[id].fileUrl));
      assert steps[..0] == [];
      assert steps[..1] == [steps[0]];
      assert steps[..2] == [steps[0], steps[1]];
      assert steps[..3] == steps;
    }
  }

  /** A delete that completes leaves no comment of the document, no row and
      no object of it, and keeps the store consistent. */
  lemma {:induction false} DeleteCompleted(s: StoreState, id: string, succeeding: nat)
    requires id in s.documents && succeeding >= 4
    ensures var r := DeleteStep(s, id, succeeding);
      && r.reply == Reply(200, MessageBody(Deleted))
      && id !in r.state.documents
      && StorageKeyOf(s.documents[id].fileUrl) !in r.state.bucket
      && (forall c :: c in r.state.comments ==> c.documentId != id)
      && (Consistent(s) ==> Consistent(r.state))
  {
    var r := DeleteStep(s, id, succeeding);
    var key := StorageKeyOf(s.documents[id].fileUrl);
    if Consistent(s) {
      forall j | j in r.state.documents
        ensures StorageKeyOf(r.state.documents[j].fileUrl) in r.state.bucket
      {
        assert j in s.documents && j != id;
      }
    }
  }

  /** A delete whose last call raises leaves the row pointing at an object
      that is gone: the store is then no longer consistent. */
  lemma {:induction false} DeleteInterruptedLeavesDanglingRow(s: StoreState, id: string)
    requires id in s.documents
    ensures var r := DeleteStep(s, id, 3);
      && r.reply.status == 500
      && id in r.state.documents
      && StorageKeyOf(r.state.documents[id].fileUrl) !in r.state.bucket
      && !Consistent(r.state)
  {
  }

  /** The whole store after a delete that completes. */
  lemma {:induction false} DeleteCompletedState(s: StoreState, id: string, succeeding: nat)
    requires id in s.documents && succeeding >= 4
    ensures var key := StorageKeyOf(s.documents[id].fileUrl);
      DeleteStep(s, id, succeeding)
        == Outcome(StoreState(s.bucket - {key}, s.documents - {id}, WithoutComments(s.comments, id),
                              s.writes + DeleteWrites(id, key)),
                   Reply(200, MessageBody(Deleted)))
  {
  }

  /** The whole store after an upload whose store calls complete. */
  lemma {:induction false} StoreUploadCompletedState(s: StoreState, prefix: string, d: NewDocument, newId: string, succeeding: nat)
    requires succeeding >= 2 && d.storageKey !in s.bucket && newId !in s.documents
    ensures var row := DocumentRow(newId, d.title, d.description, PublicUrl(prefix, d.storageKey), d.fileName, d.fileType);
      StoreUpload(s, prefix, d, newId, succeeding)
        == Outcome(StoreState(s.bucket[d.storageKey := StoredObject(d.file.content, d.file.contentType)],
                              s.documents[newId := row], s.comments,
                              s.writes + [UploadObject(d.storageKey), InsertDocument(newId)]),
                   Reply(201, DocumentBody(row)))
  {
  }

  /** Deleting a row that was added on top of `s`, together with its
      object, gives back the bucket and the table of `s`. */
  lemma {:induction false} DeleteRestores(s: StoreState, t: StoreState, id: string, row: DocumentRow,
                                          key: string, obj: StoredObject, succeeding: nat)
    requires key !in s.bucket && id !in s.documents && succeeding >= 4
    requires t.bucket == s.bucket[key := obj] && t.documents == s.documents[id := row]
    requires StorageKeyOf(row.fileUrl) == key
    ensures DeleteStep(t, id, succeeding)
      == Outcome(StoreState(s.bucket, s.documents, WithoutComments(t.comments, id), t.writes + DeleteWrites(id, key)),
                 Reply(200, MessageBody(Deleted)))
  {
    DeleteCompletedState(t, id, succeeding);
    assert t.bucket - {key} == s.bucket;
    assert t.documents - {id} == s.documents;
  }

  /** Deleting a document right after uploading it restores the bucket and
      the table as they were and removes the document's comments, with the
      five writes logged in order. */
  lemma {:induction false} DeleteUndoesUpload(s: StoreState, prefix: string, d: NewDocument, newId: string,
                                              succeedingUpload: nat, succeedingDelete: nat)
    requires '/' !in d.storageKey && succeedingDelete >= 4
    requires StoreUpload(s, prefix, d, newId, succeedingUpload).reply.status == 201
    ensures var r := DeleteStep(StoreUpload(s, prefix, d, newId, succeedingUpload).state, newId, succeedingDelete);
      && r.reply.status == 200
      && r.state.bucket == s.bucket
      && r.state.documents == s.documents
      && r.state.comments == WithoutComments(s.comments, newId)
      && r.state.writes == s.writes + [UploadObject(d.storageKey), InsertDocument(newId), DeleteComments(newId),
                                       RemoveObject(d.storageKey), DeleteDocument(newId)]
  {
    var key := d.storageKey;
    var row := DocumentRow(newId, d.title, d.description, PublicUrl(prefix, key), d.fileName, d.fileType);
    StoreUploadOutcomes(s, prefix, d, newId, succeedingUpload);
    StoreUploadCompletedState(s, prefix, d, newId, succeedingUpload);
    var u := StoreUpload(s, prefix, d, newId, succeedingUpload).state;
    DeleteRestores(s, u, newId, row, key, StoredObject(d.file.content, d.file.contentType), succeedingDelete);
  }

  // ---------------------------------------------------------------------
  // The server object

  /** The server, holding the store it writes to. */
  class Backend {
    /** The public URL prefix of the bucket: an object `key` is served at
        `PublicUrl(publicPrefix, key)`. */
    const publicPrefix: string
    var bucket: map<string, StoredObject>
    var documents: map<string, DocumentRow>
    var comments: seq<CommentRow>
    var writes: seq<Write>

    ghost function State(): StoreState
      reads this
    {
      StoreState(bucket, documents, comments, writes)
    }

    constructor (publicPrefix: string)
      ensures this.publicPrefix == publicPrefix
      ensures State() == StoreState(map[], map[], [], [])
    {
      this.publicPrefix := publicPrefix;
      bucket, documents, comments, writes := map[], map[], [], [];
    }

    method Upload(req: UploadRequest, sanitize: string -> string, uuid: string, newId: string, succeeding: nat)
      returns (reply: Reply)
      modifies this
      ensures Outcome(State(), reply) == UploadStep(old(State()), publicPrefix, req, sanitize, uuid, newId, succeeding)
    {
      var v := ValidateUpload(req, sanitize, uuid);
      if v.Err? {
        return FailureReply(v.error);
      }
      reply := SaveDocument(v.value, newId, succeeding);
    }

    /** The store calls of an upload that passed the checks. */
    method SaveDocument(d: NewDocument, newId: string, succeeding: nat) returns (reply: Reply)
      modifies this
      ensures Outcome(State(), reply) == StoreUpload(old(State()), publicPrefix, d, newId, succeeding)
    {
      if succeeding == 0 || d.storageKey in bucket {
        return FailureReply(ServerError);
      }
      bucket := bucket[d.storageKey := StoredObject(d.file.content, d.file.contentType)];
      writes := writes + [UploadObject(d.storageKey)];
      var url := PublicUrl(publicPrefix, d.storageKey);
      if succeeding == 1 || newId in documents {
        return FailureReply(ServerError);
      }
      var row := DocumentRow(newId, d.title, d.description, url, d.fileName, d.fileType);
      documents := documents[newId := row];
      writes := writes + [InsertDocument(newId)];
      reply := Reply(201, DocumentBody(row));
    }

    method AddComment(docId: string, body: Option<Json>, newId: string, succeeding: nat) returns (reply: Reply)
      modifies this
      ensures Outcome(State(), reply) == CommentStep(old(State()), docId, body, newId, succeeding)
    {
      var v := ValidateComment(docId, body);
      if v.Err? {
        return FailureReply(v.error);
      }
      reply := SaveComment(v.value, newId, succeeding);
    }

    /** The insert of a comment that passed the check. */
    method SaveComment(c: NewComment, newId: string, succeeding: nat) returns (reply: Reply)
      modifies this
      ensures Outcome(State(), reply) == StoreComment(old(State()), c, newId, succeeding)
    {
      if succeeding == 0 {
        return FailureReply(ServerError);
      }
      var row := CommentRow(newId, c.documentId, c.content);
      comments := comments + [row];
      writes := writes + [InsertComment(newId)];
      reply := Reply(201, CommentBody(row));
    }

    method Download(id: string, fetched: Option<seq<bv8>>, succeeding: nat) returns (reply: Reply)
      ensures reply == DownloadStep(State(), id, fetched, succeeding)
    {
      var doc := if succeeding > 0 && id in documents then Some(documents[id]) else None;
      var r := DownloadReply(doc, fetched);
      if r.Ok? {
        reply := Reply(200, FileBody(r.value));
      } else {
        reply := FailureReply(r.error);
      }
    }

    method Delete(id: string, succeeding: nat) returns (reply: Reply)
      modifies this
      ensures Outcome(State(), reply) == DeleteStep(old(State()), id, succeeding)
    {
      if id !in documents || succeeding == 0 {
        return FailureReply(ServerError);
      }
      var doc := documents[id];
      if succeeding == 1 {
        return FailureReply(ServerError);
      }
      comments := WithoutComments(comments, id);
      writes := writes + [DeleteComments(id)];
      var key := StorageKeyOf(doc.fileUrl);
      if succeeding == 2 {
        return FailureReply(ServerError);
      }
      bucket := bucket - {key};
      writes := writes + [RemoveObject(key)];
      if succeeding == 3 {
        return FailureReply(ServerError);
      }
      documents := documents - {id};
      writes := writes + [DeleteDocument(id)];
      reply := Reply(200, MessageBody(Deleted));
    }
  }
}
