/** Properties that span the browser script and the server: what the
    pages send is what the handlers check, and what the handlers store is
    what the pages and the download show. */
module EndToEnd {
  import opened Wrappers
  import opened Text
  import opened Schema
  import opened Api
  import opened Store
  import opened Client
  import opened UploadPage
  import opened DocumentPage

  /** The multipart request the upload page posts: the file under `file`,
      and the title and description as typed. */
  function RequestOf(p: UploadPayload): UploadRequest {
    UploadRequest(map["file" := FilePart(p.file.name, p.file.mimeType, p.file.content)],
                  map["title" := p.title, "description" := p.description])
  }

  /** A request from the upload page always carries a file, so it is never
      refused for lacking one; it is accepted exactly when the file has a
      name with a whitelisted extension and the title is not blank. The
      icon and label the page showed for the file then agree with the
      badge and label the detail page shows for the stored type. */
  lemma {:induction false} UploadPageRequest(p: UploadPayload, sanitize: string -> string, uuid: string)
    ensures ValidateUpload(RequestOf(p), sanitize, uuid) != Err(BadRequest(NoFileSent))
    ensures ValidateUpload(RequestOf(p), sanitize, uuid).Ok?
      <==> p.file.name != "" && AllowedFile(p.file.name) && !AllWith(p.title, IsPySpace)
    ensures ValidateUpload(RequestOf(p), sanitize, uuid).Ok? ==>
      var t := ValidateUpload(RequestOf(p), sanitize, uuid).value.fileType;
      && IconClass(p.file.name) == BadgeClass(t)
      && ExtensionLabel(p.file.name) == Upper(t)
  {
    var req := RequestOf(p);
    assert "file" in req.files && req.files["file"].filename == p.file.name;
    assert FormField(req.form, "title") == p.title;
    UploadRejectionOrder(req, sanitize, uuid);
    UploadAccepted(req, sanitize, uuid);
    var e := AfterLast(p.file.name, '.');
    ExtensionLabelSpec(p.file.name);
    BadgeClassSpec(e, e);
    LowerUpper(e);
  }

  /** For a stored type (a whitelisted extension in lower case), the
      download's media type, the detail page's image preview and its badge
      tell the same story. */
  lemma {:induction false} StoredTypeAgrees(t: string)
    requires t in AllowedExtensions && Lower(t) == t
    ensures ContentType(t) != OctetStream
    ensures ShowsImagePreview(t) <==> ContentType(t) == "image/jpeg" || ContentType(t) == "image/png"
    ensures BadgeClass(t) == PdfBadge <==> ContentType(t) == "application/pdf"
  {
    ContentTypeTable(t);
    BadgeClassSpec(t, t);
  }

  /** Every accepted upload is stored under a lower-case whitelisted type. */
  lemma {:induction false} AcceptedTypeIsStoredType(req: UploadRequest, sanitize: string -> string, uuid: string)
    requires CheckUpload(req).Ok?
    ensures var t := ValidateUpload(req, sanitize, uuid).value.fileType;
      t in AllowedExtensions && Lower(t) == t
  {
    UploadAccepted(req, sanitize, uuid);
    LowerUpper(AfterLast(req.files["file"].filename, '.'));
  }

  /** The detail page of a document that was just uploaded: its title and
      name are the stripped title and the sanitised name, its description
      is the stripped one or the placeholder when it was blank, its badge
      reads as the icon label of the upload page, its image preview is
      shown exactly when the download is served as an image, and its
      download link leads to the stored object. */
  lemma {:induction false} DetailOfUpload(s: StoreState, prefix: string, req: UploadRequest, sanitize: string -> string,
                                          uuid: string, newId: string, succeeding: nat, docId: string)
    requires '/' !in uuid
    requires UploadStep(s, prefix, req, sanitize, uuid, newId, succeeding).reply.status == 201
    ensures CheckUpload(req).Ok?
    ensures var row := UploadStep(s, prefix, req, sanitize, uuid, newId, succeeding).reply.body.doc;
      var v := RenderDocument(docId, row);
      var name := req.files["file"].filename;
      var description := FormField(req.form, "description");
      && v.title == Strip(FormField(req.form, "title"))
      && v.downloadName == sanitize(name)
      && v.description == (if AllWith(description, IsPySpace) then NoDescription else Strip(description))
      && v.badgeText == ExtensionLabel(name)
      && (v.preview.Some? <==> ContentType(row.fileType) == "image/jpeg" || ContentType(row.fileType) == "image/png")
      && StorageKeyOf(v.viewHref) == ValidateUpload(req, sanitize, uuid).value.storageKey
  {
    UploadOutcomes(s, prefix, req, sanitize, uuid, newId, succeeding);
    assert CheckUpload(req).Ok?;
    var d := ValidateUpload(req, sanitize, uuid).value;
    StoreUploadOutcomes(s, prefix, d, newId, succeeding);
    UploadAccepted(req, sanitize, uuid);
    AcceptedTypeIsStoredType(req, sanitize, uuid);
    StoredTypeAgrees(d.fileType);
    StripBlankIff(FormField(req.form, "description"));
    var name := req.files["file"].filename;
    var e := AfterLast(name, '.');
    ExtensionLabelSpec(name);
    LowerUpper(e);
  }

  /** Deleting a document right after it was uploaded through the handler
      gives back the bucket and the table as they were. */
  lemma {:induction false} DeleteUndoesAcceptedUpload(s: StoreState, prefix: string, req: UploadRequest,
                                                      sanitize: string -> string, uuid: string, newId: string,
                                                      succeedingUpload: nat, succeedingDelete: nat)
    requires '/' !in uuid && succeedingDelete >= 4
    requires UploadStep(s, prefix, req, sanitize, uuid, newId, succeedingUpload).reply.status == 201
    ensures var r := DeleteStep(UploadStep(s, prefix, req, sanitize, uuid, newId, succeedingUpload).state, newId, succeedingDelete);
      && r.reply.status == 200
      && r.state.bucket == s.bucket
      && r.state.documents == s.documents
  {
    UploadOutcomes(s, prefix, req, sanitize, uuid, newId, succeedingUpload);
    var d := ValidateUpload(req, sanitize, uuid).value;
    DeleteUndoesUpload(s, prefix, d, newId, succeedingUpload, succeedingDelete);
  }

  /** The JSON body the comment form posts. */
  function CommentJson(content: string): Option<Json> {
    Some(JObject(map["content" := JString(content)]))
  }

  /** A comment the form posts (its trimmed input) is stored exactly when
      it is not all Python whitespace, and then stored stripped. */
  lemma {:induction false} PostedCommentAccepted(docId: string, input: string)
    ensures ValidateComment(docId, CommentJson(Trim(input))).Ok? <==> !AllWith(Trim(input), IsPySpace)
    ensures ValidateComment(docId, CommentJson(Trim(input))).Ok? ==>
      ValidateComment(docId, CommentJson(Trim(input))).value == NewComment(docId, Strip(Trim(input)))
    ensures ValidateComment(docId, CommentJson(Trim(input))).Err? ==>
      ValidateComment(docId, CommentJson(Trim(input))).error == BadRequest(CommentRequired)
  {
    var body := CommentJson(Trim(input));
    assert body.value.fields["content"] == JString(Trim(input));
  }

  /** The form and the handler do not agree on what is blank: JavaScript's
      `trim` and Python's `strip` differ on U+001C to U+001F and on U+FEFF.
      A comment of one U+001C passes the form's check and is refused by
      the handler; one of U+FEFF is held back by the form though the
      handler would store it. */
  lemma {:induction false} BlankCommentsDiffer(docId: string, fs: char, bom: char)
    requires fs == '\U{1C}' && bom == '\U{FEFF}'
    ensures !AllWith([fs], IsJsSpace) && ValidateComment(docId, CommentJson(Trim([fs]))) == Err(BadRequest(CommentRequired))
    ensures AllWith([bom], IsJsSpace) && ValidateComment(docId, CommentJson([bom])).Ok?
  {
    TrimBlankIff([fs]);
    assert Trim([fs]) != [];
    assert Trim([fs]) == [fs] by {
      assert |Trim([fs])| <= 1;
    }
    PostedCommentAccepted(docId, [fs]);
    assert AllWith([fs], IsPySpace);
    var body := CommentJson([bom]);
    assert body.value.fields["content"] == JString([bom]);
    assert !AllWith([bom], IsPySpace) by { assert !IsPySpace([bom][0]); }
  }
}
