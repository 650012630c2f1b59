/** The request rules of the Flask back end (app.py): the extension
    whitelist, the validation and normalisation of an upload, the check on a
    new comment, the Content-Type table of a download and the storage key
    that a delete derives from a document's URL. Supabase, `uuid.uuid4` and
    werkzeug's `secure_filename` are outside: the last two are parameters. */
module Api {
  import opened Wrappers
  import opened Text
  import opened Schema

  const AllowedExtensions: set<string> := {"pdf", "jpg", "jpeg", "png"}

  /** `allowed_file`: the name has a '.', and the text after its last '.',
      lowercased, is a whitelisted extension. */
  function AllowedFile(filename: string): bool {
    '.' in filename && Lower(RSplitOnce(filename, '.')[1]) in AllowedExtensions
  }

  /** Whatever comes before the last '.', a name is allowed exactly when
      the text after it, lowercased, is whitelisted. */
  lemma {:induction false} AllowedFileLooksAtLastExtension(stem: string, ext: string)
    requires '.' !in ext
    ensures AllowedFile(stem + "." + ext) <==> Lower(ext) in AllowedExtensions
  {
    var f := stem + "." + ext;
    assert '.' in f by { assert f[|stem|] == '.'; }
    var parts := RSplitOnce(f, '.');
    SuffixAfterSepUnique(parts[0], parts[1], stem, ext, '.');
  }

  /** A name without '.' is never allowed, and a name that has one is
      allowed exactly when its last extension is. */
  lemma {:induction false} AllowedFileIff(f: string)
    ensures AllowedFile(f) <==> '.' in f && Lower(AfterLast(f, '.')) in AllowedExtensions
  {
    if '.' in f {
      RSplitOnceAfterLast(f, '.');
    }
  }

  /** The whitelist ignores case. */
  lemma {:induction false} AllowedFileIgnoresCase(f: string)
    ensures AllowedFile(Lower(f)) == AllowedFile(f)
    ensures AllowedFile(Upper(f)) == AllowedFile(f)
  {
    LowerKeeps(f, '.');
    assert '.' in Lower(f) <==> '.' in f by {
      assert forall i :: 0 <= i < |f| ==> (Lower(f)[i] == '.' <==> f[i] == '.');
    }
    assert '.' in Upper(f) <==> '.' in f by {
      assert forall i :: 0 <= i < |f| ==> (Upper(f)[i] == '.' <==> f[i] == '.');
    }
    if '.' in f {
      var parts := RSplitOnce(f, '.');
      var stem, ext := parts[0], parts[1];
      LowerConcat(stem + ".", ext);
      LowerConcat(stem, ".");
      assert Lower(".") == ".";
      assert '.' !in Lower(ext) by {
        assert forall i :: 0 <= i < |ext| ==> (Lower(ext)[i] == '.' <==> ext[i] == '.');
      }
      AllowedFileLooksAtLastExtension(Lower(stem), Lower(ext));
      LowerUpper(ext);
      UpperConcat(stem + ".", ext);
      UpperConcat(stem, ".");
      assert Upper(".") == ".";
      assert '.' !in Upper(ext) by {
        assert forall i :: 0 <= i < |ext| ==> (Upper(ext)[i] == '.' <==> ext[i] == '.');
      }
      AllowedFileLooksAtLastExtension(Upper(stem), Upper(ext));
      AllowedFileLooksAtLastExtension(stem, ext);
    }
  }

  /** Whatever the stem: an upper-case extension is accepted, a
      whitelisted extension followed by another one is judged by the last,
      and a trailing '.' is rejected. */
  lemma {:induction false} AllowedFileExamples(stem: string)
    ensures AllowedFile(stem + ".PDF")
    ensures !AllowedFile(stem + ".pdf.exe")
    ensures !AllowedFile(stem + ".")
  {
    UpperCaseExtensionAllowed(stem);
    DoubleExtensionJudgedByLast(stem);
    assert stem + "." == stem + "." + "";
    AllowedFileLooksAtLastExtension(stem, "");
  }

  lemma {:induction false} UpperCaseExtensionAllowed(stem: string)
    ensures AllowedFile(stem + ".PDF")
  {
    assert stem + ".PDF" == stem + "." + "PDF";
    LowerPdf();
    AllowedFileLooksAtLastExtension(stem, "PDF");
  }

  lemma {:induction false} DoubleExtensionJudgedByLast(stem: string)
    ensures !AllowedFile(stem + ".pdf.exe")
  {
    assert stem + ".pdf.exe" == (stem + ".pdf") + "." + "exe";
    LowerOfLowerCase("exe");
    AllowedFileLooksAtLastExtension(stem + ".pdf", "exe");
  }

  lemma LowerPdf()
    ensures Lower("PDF") == "pdf"
  {
    assert Lower("PDF")[0] == 'p' && Lower("PDF")[1] == 'd' && Lower("PDF")[2] == 'f';
  }

  // ---------------------------------------------------------------------
  // POST /api/documents

  const NoFileSent := "Nenhum arquivo enviado"
  const NoFileSelected := "Nenhum arquivo selecionado"
  const FormatNotAllowed := "Formato não permitido. Use PDF, JPG ou PNG."
  const TitleRequired := "O título é obrigatório"

  /** One part of a multipart request: the client's file name, the declared
      content type and the bytes. */
  datatype FilePart = FilePart(filename: string, contentType: string, content: seq<bv8>)

  /** `request.files` and `request.form` of a multipart request. */
  datatype UploadRequest = UploadRequest(files: map<string, FilePart>, form: map<string, string>)

  /** How a handler fails: a 400 reply whose `error` is a fixed message, or
      an exception caught by the handler's `except Exception`, answered with
      500 and the exception's text. */
  datatype Failure = BadRequest(message: string) | ServerError

  function Status(f: Failure): nat {
    if f.BadRequest? then 400 else 500
  }

  /** `request.form.get(key, '')`. */
  function FormField(form: map<string, string>, key: string): string {
    if key in form then form[key] else ""
  }

  /** What passed the four checks of an upload, stripped. */
  datatype CheckedUpload = CheckedUpload(file: FilePart, title: string, description: string)

  /** The document an accepted upload stores: the object under
      `storageKey`, and the row with these fields. */
  datatype NewDocument = NewDocument(
    file: FilePart,
    title: string,
    description: Option<string>,
    fileName: string,
    fileType: string,
    storageKey: string)

  /** The checks of `upload_document`, in the order the handler makes them;
      the first that fails decides the 400 reply. */
  function CheckUpload(req: UploadRequest): (r: Result<CheckedUpload, Failure>)
    ensures r.Err? ==> r.error.BadRequest?
    ensures r.Ok? ==>
      && "file" in req.files && r.value.file == req.files["file"]
      && AllowedFile(r.value.file.filename)
      && r.value.title == Strip(FormField(req.form, "title")) && r.value.title != ""
      && r.value.description == Strip(FormField(req.form, "description"))
  {
    if "file" !in req.files then Err(BadRequest(NoFileSent))
    else
      var file := req.files["file"];
      if file.filename == "" then Err(BadRequest(NoFileSelected))
      else if !AllowedFile(file.filename) then Err(BadRequest(FormatNotAllowed))
      else
        var title := Strip(FormField(req.form, "title"));
        if title == "" then Err(BadRequest(TitleRequired))
        else Ok(CheckedUpload(file, title, Strip(FormField(req.form, "description"))))
  }

  /** The fields of the stored document, once the extension is known: an
      empty description is stored as None, and the object key is
      `<uuid>.<extension>`. */
  function Normalise(c: CheckedUpload, fileName: string, ext: string, uuid: string): NewDocument {
    NewDocument(c.file, c.title, if c.description == "" then None else Some(c.description),
      fileName, ext, uuid + "." + ext)
  }

  /** `upload_document` as written: the whitelist is checked on the client's
      name, but the extension is taken from `secure_filename` of it, and
      `rsplit('.', 1)[1]` raises IndexError (answered with 500) when the
      sanitised name has no '.' left. */
  function ValidateUploadAsWritten(req: UploadRequest, sanitize: string -> string, uuid: string)
    : (r: Result<NewDocument, Failure>)
    ensures CheckUpload(req).Err? ==> r == Err(CheckUpload(req).error)
    ensures r.Ok? <==> CheckUpload(req).Ok? && '.' in sanitize(req.files["file"].filename)
    ensures CheckUpload(req).Ok? && '.' !in sanitize(req.files["file"].filename) ==> r == Err(ServerError)
    ensures r.Ok? ==>
      var safe := sanitize(req.files["file"].filename);
      && r.value.fileName == safe
      && r.value.fileType == Lower(AfterLast(safe, '.'))
      && r.value.storageKey == uuid + "." + r.value.fileType
  {
    match CheckUpload(req)
    case Err(f) => Err(f)
    case Ok(c) =>
      var name := sanitize(c.file.filename);
      var parts := RSplitOnce(name, '.');
      if |parts| < 2 then Err(ServerError)
      else
        RSplitOnceAfterLast(name, '.');
        Ok(Normalise(c, name, Lower(parts[1]), uuid))
  }

  /** `upload_document` with the extension taken from the name that passed
      the whitelist: every upload that passes the four checks is accepted,
      and its type is a whitelisted extension. */
  function ValidateUpload(req: UploadRequest, sanitize: string -> string, uuid: string)
    : (r: Result<NewDocument, Failure>)
    ensures r.Ok? <==> CheckUpload(req).Ok?
    ensures r.Err? ==> r.error.BadRequest?
    ensures r.Ok? ==>
      && r.value.fileType in AllowedExtensions
      && r.value.storageKey == uuid + "." + r.value.fileType
      && r.value.fileName == sanitize(req.files["file"].filename)
  {
    match CheckUpload(req)
    case Err(f) => Err(f)
    case Ok(c) =>
      var name := c.file.filename;
      Ok(Normalise(c, sanitize(name), Lower(RSplitOnce(name, '.')[1]), uuid))
  }

  /** Which upload is accepted, and what is stored for it: the stripped
      title, the stripped description or None when it is blank, the
      sanitised name, and as type the lowercased text after the last '.'. */
  lemma {:induction false} UploadAccepted(req: UploadRequest, sanitize: string -> string, uuid: string)
    ensures var r := ValidateUpload(req, sanitize, uuid);
      r.Ok? <==>
        && "file" in req.files && req.files["file"].filename != ""
        && AllowedFile(req.files["file"].filename)
        && !AllWith(FormField(req.form, "title"), IsPySpace)
    ensures var r := ValidateUpload(req, sanitize, uuid);
      r.Ok? ==>
        var name := req.files["file"].filename;
        var d := Strip(FormField(req.form, "description"));
        && r.value.file == req.files["file"]
        && r.value.title == Strip(FormField(req.form, "title"))
        && r.value.description == (if AllWith(FormField(req.form, "description"), IsPySpace) then None else Some(d))
        && r.value.fileType == Lower(AfterLast(name, '.'))
        && r.value.storageKey == uuid + "." + Lower(AfterLast(name, '.'))
  {
    StripBlankIff(FormField(req.form, "title"));
    StripBlankIff(FormField(req.form, "description"));
    if "file" in req.files {
      var name := req.files["file"].filename;
      if '.' in name {
        RSplitOnceAfterLast(name, '.');
      }
    }
  }

  /** The first check that fails names itself: each message is sent exactly
      when every earlier check passed and its own did not. */
  lemma {:induction false} UploadRejectionOrder(req: UploadRequest, sanitize: string -> string, uuid: string)
    ensures var r := ValidateUpload(req, sanitize, uuid);
      && (r == Err(BadRequest(NoFileSent)) <==> "file" !in req.files)
      && (r == Err(BadRequest(NoFileSelected)) <==>
            "file" in req.files && req.files["file"].filename == "")
      && (r == Err(BadRequest(FormatNotAllowed)) <==>
            "file" in req.files && req.files["file"].filename != ""
            && !AllowedFile(req.files["file"].filename))
      && (r == Err(BadRequest(TitleRequired)) <==>
            "file" in req.files && req.files["file"].filename != ""
            && AllowedFile(req.files["file"].filename)
            && AllWith(FormField(req.form, "title"), IsPySpace))
  {
    StripBlankIff(FormField(req.form, "title"));
    assert NoFileSent != NoFileSelected && NoFileSent != FormatNotAllowed && NoFileSent != TitleRequired;
    assert NoFileSelected != FormatNotAllowed && NoFileSelected != TitleRequired;
    assert FormatNotAllowed != TitleRequired;
  }

  /** Wherever the sanitiser keeps the last extension, the corrected upload
      and the upload as written store the same document. */
  lemma {:induction false} UploadFixAgreesWhenExtensionKept(req: UploadRequest, sanitize: string -> string, uuid: string)
    requires CheckUpload(req).Ok?
    requires var name := req.files["file"].filename;
      '.' in sanitize(name) && AfterLast(sanitize(name), '.') == AfterLast(name, '.')
    ensures ValidateUploadAsWritten(req, sanitize, uuid) == ValidateUpload(req, sanitize, uuid)
  {
    var c := CheckUpload(req).value;
    var name := c.file.filename;
    var safe := sanitize(name);
    RSplitOnceAfterLast(safe, '.');
    RSplitOnceAfterLast(name, '.');
    var ext := Lower(AfterLast(name, '.'));
    assert ValidateUploadAsWritten(req, sanitize, uuid) == Ok(Normalise(c, safe, ext, uuid));
    assert ValidateUpload(req, sanitize, uuid) == Ok(Normalise(c, safe, ext, uuid));
  }

  /** Whenever the sanitiser leaves no '.' in a name that passed the
      checks, the handler as written answers 500, and the corrected one
      accepts the upload. */
  lemma {:induction false} UploadAsWrittenFailsWithoutDot(req: UploadRequest, sanitize: string -> string, uuid: string)
    requires CheckUpload(req).Ok?
    requires '.' !in sanitize(req.files["file"].filename)
    ensures ValidateUploadAsWritten(req, sanitize, uuid) == Err(ServerError)
    ensures ValidateUpload(req, sanitize, uuid).Ok?
  {
  }

  /** "文件.pdf" passes the whitelist, but werkzeug's `secure_filename`
      keeps only the ASCII "pdf" of it: the handler as written answers 500,
      the corrected one stores a PDF. */
  lemma {:induction false} UploadAsWrittenFailsOnNonAsciiName(
    name: string, title: string, sanitize: string -> string, uuid: string)
    requires name == "文件.pdf" && sanitize(name) == "pdf"
    requires !AllWith(title, IsPySpace)
    ensures var req := UploadRequest(map["file" := FilePart(name, "application/pdf", [])], map["title" := title]);
      && AllowedFile(name)
      && ValidateUploadAsWritten(req, sanitize, uuid) == Err(ServerError)
      && ValidateUpload(req, sanitize, uuid).Ok?
      && ValidateUpload(req, sanitize, uuid).value.fileType == "pdf"
  {
    var req := UploadRequest(map["file" := FilePart(name, "application/pdf", [])], map["title" := title]);
    assert name == "文件" + "." + "pdf";
    LowerOfLowerCase("pdf");
    AllowedFileLooksAtLastExtension("文件", "pdf");
    assert FormField(req.form, "title") == title;
    StripBlankIff(title);
    assert '.' !in sanitize(name);
    UploadAsWrittenFailsWithoutDot(req, sanitize, uuid);
  }

  // ---------------------------------------------------------------------
  // POST /api/documents/<doc_id>/comments

  const CommentRequired := "O conteúdo do comentário é obrigatório"

  datatype NewComment = NewComment(documentId: string, content: string)

  /** `add_comment` up to the insert. `body` is None when `get_json()`
      raises (a malformed body, or one not sent as JSON); a body that is not
      an object, or whose `content` is not a string, makes `.get` or
      `.strip` raise. */
  function ValidateComment(docId: string, body: Option<Json>): (r: Result<NewComment, Failure>)
    ensures r.Ok? <==>
      && body.Some? && body.value.JObject? && "content" in body.value.fields
      && body.value.fields["content"].JString?
      && !AllWith(body.value.fields["content"].s, IsPySpace)
    ensures r.Ok? ==>
      && r.value.documentId == docId
      && r.value.content == Strip(body.value.fields["content"].s) && r.value.content != ""
    ensures r == Err(BadRequest(CommentRequired)) <==>
      && body.Some?
      && (|| !Truthy(body.value)
          || (body.value.JObject? && ("content" in body.value.fields ==>
                body.value.fields["content"].JString? && AllWith(body.value.fields["content"].s, IsPySpace))))
    ensures r.Err? ==> r.error == BadRequest(CommentRequired) || r.error == ServerError
  {
    match body
    case None => Err(ServerError)
    case Some(data) =>
      if !Truthy(data) then Err(BadRequest(CommentRequired))
      else if !data.JObject? then Err(ServerError)
      else
        var content := if "content" in data.fields then data.fields["content"] else JString("");
        if !content.JString? then Err(ServerError)
        else
          StripBlankIff(content.s);
          if Strip(content.s) == "" then Err(BadRequest(CommentRequired))
          else Ok(NewComment(docId, Strip(content.s)))
  }

  // ---------------------------------------------------------------------
  // GET /api/documents/<doc_id>/download

  const OctetStream := "application/octet-stream"

  const ContentTypes: map<string, string> :=
    map["pdf" := "application/pdf", "jpg" := "image/jpeg", "jpeg" := "image/jpeg", "png" := "image/png"]

  /** `content_types.get(file_type, 'application/octet-stream')`. */
  function ContentType(fileType: string): string {
    if fileType in ContentTypes then ContentTypes[fileType] else OctetStream
  }

  /** The table names exactly the whitelisted extensions, each with its
      own media type, and is case-sensitive. */
  lemma {:induction false} ContentTypeTable(t: string)
    ensures ContentTypes.Keys == AllowedExtensions
    ensures ContentType(t) != OctetStream <==> t in AllowedExtensions
    ensures ContentType(t) == "application/pdf" <==> t == "pdf"
    ensures ContentType(t) == "image/jpeg" <==> t == "jpg" || t == "jpeg"
    ensures ContentType(t) == "image/png" <==> t == "png"
    ensures ContentType("PDF") == OctetStream
  {
    assert "PDF" != "pdf";
  }

  /** The `Content-Disposition` header: always an attachment, under the
      stored name. */
  function Disposition(fileName: string): string {
    "attachment; filename=\"" + fileName + "\""
  }

  datatype Download = Download(content: seq<bv8>, disposition: string, contentType: string)

  /** `download_document` after its reads: `doc` is None when the select
      raises (no such row), `fetched` is None when `httpx.get` raises; the
      fetched body is passed on whatever its HTTP status was. */
  function DownloadReply(doc: Option<DocumentRow>, fetched: Option<seq<bv8>>): (r: Result<Download, Failure>)
    ensures r.Ok? <==> doc.Some? && fetched.Some?
    ensures r.Err? ==> r.error == ServerError
    ensures r.Ok? ==>
      && r.value.content == fetched.value
      && r.value.contentType == ContentType(doc.value.fileType)
      && r.value.disposition == Disposition(doc.value.fileName)
  {
    if doc.None? || fetched.None? then Err(ServerError)
    else Ok(Download(fetched.value, Disposition(doc.value.fileName), ContentType(doc.value.fileType)))
  }

  // ---------------------------------------------------------------------
  // DELETE /api/documents/<doc_id>

  /** `file_url.split('/')[-1]`: the object key a delete removes. */
  function StorageKeyOf(fileUrl: string): (key: string)
    ensures '/' !in key
  {
    Last(Split(fileUrl, '/'))
  }

  /** The public URL of an object, as the store builds it: its public
      prefix for the bucket, a '/', and the key. */
  function PublicUrl(prefix: string, key: string): string {
    prefix + "/" + key
  }

  /** The key a delete derives from a public URL is the key the URL was
      made from, provided the key has no '/'. */
  lemma {:induction false} StorageKeyOfPublicUrl(prefix: string, key: string)
    requires '/' !in key
    ensures StorageKeyOf(PublicUrl(prefix, key)) == key
  {
    var url := PublicUrl(prefix, key);
    LastOfSplit(url, '/');
    var r := AfterLast(url, '/');
    assert '/' in url by { assert url[|prefix|] == '/'; }
    SuffixAfterSepUnique(url[..|url| - |r| - 1], r, prefix, key, '/');
  }
}
