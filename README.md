# Document manager: a verified model of its rules

The system is a small document manager. A Flask back end (`app.py`) keeps
uploaded PDF and image files in a Supabase storage bucket, keeps one row
per document and one per comment in two Supabase tables, and serves them
over a JSON API. A browser script (`static/js/app.js`) drives three pages:
the document list, the upload form and the document page with its comments.

This project models the deterministic core of both halves in Dafny:

- the upload whitelist (`allowed_file`);
- the checks and field normalisation of an upload;
- the check on a comment;
- the Content-Type table of a download;
- the storage-key derivation and write order of a delete;
- the badge, label, preview and description rules of the pages;
- the event handlers of the upload form and of the comment form.

The store is a value: the bucket, the two tables, and a log of writes in
order. Each handler is a step from one store value to the next, together
with its reply. `Store.Backend` holds the store in fields, and its
methods run the steps in place. Any store call may raise. A
`succeeding: nat` argument says how many of a handler's store calls
complete before one raises. The handler's `except Exception` then answers
500, and the writes already made stay.

The two page forms are classes. Their fields stand for the closure
variable `selectedFile` and for the DOM state the handlers write:
- visibility and highlight flags;
- the submit button and its label;
- the toasts shown;
- the requests sent.
Each handler method is proved equal to a transition function on a state
value. The lemmas about those functions prove what the handlers keep and
what they leave unchanged.

Modules, in dependency order:

| file | module | contents |
|---|---|---|
| wrappers.dfy | `Wrappers` | `Option`, `Result` |
| text.dfy | `Text` | Python `str.strip` and JavaScript `trim` with their exact whitespace sets, ASCII `lower`/`upper`, `split`, `rsplit('.', 1)`, text after the last separator |
| schema.dfy | `Schema` | JSON values, the `documents` and `comments` rows |
| api.dfy | `Api` | the pure rules of `app.py` |
| store.dfy | `Store` | the handlers over the store, and `class Backend` |
| client.dfy | `Client` | the pure helpers of `app.js`, toasts, fetch outcomes |
| upload_form.dfy | `UploadPage` | `setupUploadForm` and `showFilePreview`, and `class UploadForm` |
| document_page.dfy | `DocumentPage` | `loadDocument` and `setupCommentForm`, and `class CommentForm` |
| end_to_end.dfy | `EndToEnd` | properties that span the pages and the handlers |

Foreign and random inputs are parameters:
- werkzeug's `secure_filename` is `sanitize: string -> string`;
- `uuid.uuid4()` is `uuid`;
- the id the database draws for a new row is `newId`;
- the bucket's public URL prefix is `Backend.publicPrefix`;
- the body `httpx.get` fetches is `fetched`;
- the result of `request.get_json()` is `body: Option<Json>`, where None means it raised;
- the outcome of each browser `fetch` is a `FetchOutcome`.

## Model

| member | source | states |
|---|---|---|
| Api.AllowedFileIff | app.py:37-40 | a name is allowed exactly when it contains '.' and the text after its last '.', lowercased, is in the whitelist; so a name without '.' is never allowed |
| Api.AllowedFileLooksAtLastExtension | app.py:20 | for any stem and any extension without '.', `stem.ext` is allowed exactly when the lowercased extension is one of pdf, jpg, jpeg, png |
| Api.AllowedFileIgnoresCase | app.py:39-40 | lowercasing or uppercasing a name does not change whether it is allowed |
| Api.AllowedFileExamples | app.py:37-40 | for every stem, `stem.PDF` is allowed, while `stem.pdf.exe` and `stem.` are refused |
| Api.CheckUpload | app.py:93-107 | every refusal is a 400 BadRequest; on success the file is the `file` part, its name is allowed, and the title and description are the stripped form fields, with a non-empty title |
| Api.UploadRejectionOrder | app.py:93-105 | each of the four messages is returned exactly when every earlier check passed and its own check failed: no `file` part, then an empty name, then a disallowed extension, then a blank title |
| Api.UploadAccepted | app.py:93-129 | (corrected) an upload is accepted exactly when a named file with an allowed extension and a non-blank title are sent; the stored title is stripped, the description is None when blank and stripped otherwise, and the type and key come from the lowercased last extension |
| Api.ValidateUpload | app.py:100-111 | (corrected) accepted exactly when the four checks pass; errors are 400 only; the type is whitelisted, the key is `<uuid>.<type>`, and the stored name is the sanitised name |
| Api.ValidateUploadAsWritten | app.py:109-111 | (as written) a request that fails the checks gets that check's 400; one that passes them is accepted exactly when the sanitised name contains a '.', and is a 500 otherwise; an accepted one is stored under the sanitised name, with the lowercased text after that name's last '.' as type and `<uuid>.<type>` as key |
| Api.UploadAsWrittenFailsWithoutDot | app.py:109-110 | when the sanitiser leaves no '.' in a name that passed the checks, the code as written answers 500 and the corrected rule accepts the upload |
| Api.UploadAsWrittenFailsOnNonAsciiName | app.py:100-110 | "文件.pdf" with a non-blank title passes the whitelist, yet the code as written answers 500 when the sanitiser turns the name into "pdf"; the corrected rule stores a PDF |
| Api.UploadFixAgreesWhenExtensionKept | app.py:109-110 | whenever the sanitiser keeps the last extension, the corrected rule and the code as written store the same document |
| Api.ValidateComment | app.py:156-164 | accepted exactly when the body is a JSON object whose `content` string is not blank after strip, and then stored stripped under the URL's document id; 400 exactly for a falsy body or a blank (or absent) `content`; every other error is a 500 |
| Api.ContentTypeTable | app.py:189-200 | the table's keys are exactly the whitelist; pdf gives application/pdf, jpg and jpeg give image/jpeg, png gives image/png; any other key, including "PDF", gives application/octet-stream |
| Api.DownloadReply | app.py:177-202 | a file is served exactly when the row was read and the fetch completed, with the fetched bytes, the row type's media type and an attachment disposition under the row's name; otherwise 500 |
| Api.StorageKeyOf | app.py:223-224 | the derived key never contains '/' |
| Api.StorageKeyOfPublicUrl | app.py:224 | the key that a delete derives from a public URL (as `get_public_url` builds it at app.py:121) is the key the URL was built from, when that key has no '/' |
| Store.StoreUploadOutcomes | app.py:115-132 | the store calls of an accepted upload answer 201 exactly when both complete and the key and id are free; the bucket then holds the file under the key, the table holds the row, and the row's URL leads back to the key; otherwise 500 with the table as it was |
| Store.UploadOutcomes | app.py:92-135 | (corrected) a request that fails the checks answers 400 with that check's message and changes nothing; an accepted one goes to the store calls, under a key without '/' whenever the uuid has none |
| Store.UploadAsWrittenOutcomes | app.py:109-135 | (as written) the handler as written and the corrected one refuse the same requests with the same 400 and make the same store calls whenever the sanitiser keeps the last extension; when the sanitised name has no '.', the handler as written answers 500 and changes nothing, while the corrected one goes on to the store calls |
| Store.UploadInterruptedLeavesOrphan | app.py:115-135 | when the row insert raises, the object stays in the bucket and no row is added |
| Store.UploadKeepsConsistent | app.py:111-131 | a completed upload keeps every row's object in the bucket and every row's object distinct |
| Store.CommentOutcomes | app.py:156-170 | a comment is stored exactly when it passes the check and the insert completes; it is appended after the others, and a comment that is not stored changes nothing |
| Store.DownloadStep | app.py:177-205 | 200 exactly when the row exists, its read completes and the fetch completes, serving the row's media type and name; otherwise 500 |
| Store.WithoutComments | app.py:218-221 | the comments left are exactly those of other documents, and none are lost when the document has none |
| Store.DeleteOutcomes | app.py:212-235 | a delete makes its three writes in order (comments, then the object named by the last '/' segment of the URL, then the row) and stops at the first call that raises; each write made has taken effect, and only a delete that made all three answers 200 |
| Store.DeleteCompleted | app.py:218-232 | after a completed delete the row, its object and its comments are gone, and consistency is kept |
| Store.DeleteInterruptedLeavesDanglingRow | app.py:225-230 | when the row delete raises, the row is left pointing at an object that is gone |
| Store.DeleteCompletedState | app.py:212-232 | the whole store after a completed delete |
| Store.StoreUploadCompletedState | app.py:115-132 | the whole store after an upload whose store calls complete |
| Store.DeleteRestores | app.py:218-230 | deleting a row that was added on top of a store, together with its object, restores that store's bucket and table |
| Store.DeleteUndoesUpload | app.py:212-232 | a delete right after an upload restores the bucket and the table and logs the five writes in order |
| Store.Backend.Upload | app.py:89-135 | (corrected) the server's upload updates the store and replies as the upload step says |
| Store.Backend.SaveDocument | app.py:115-132 | the store calls of an accepted upload update the store as the store-upload step says |
| Store.Backend.AddComment | app.py:152-170 | the server's comment handler updates the store and replies as the comment step says |
| Store.Backend.SaveComment | app.py:161-167 | the insert of an accepted comment |
| Store.Backend.Download | app.py:173-205 | the download reply is the download step's, and nothing changes |
| Store.Backend.Delete | app.py:208-235 | the server's delete updates the store and replies as the delete step says |
| Client.BadgeClassSpec | static/js/app.js:35-39 | the badge is the PDF one exactly when the lowercased type is "pdf" and the image one otherwise; types that differ only in case get the same badge |
| Client.ExtensionLabelSpec | static/js/app.js:211-213 | the label is the text after the last '.', uppercased, or the whole name when there is no '.'; it never contains '.'; the icon class is the badge of that text |
| Client.ImagePreviewSpec | static/js/app.js:253 | the image preview is shown exactly for jpg, jpeg and png in any case, and an image always has the image badge |
| Client.DescriptionTextSpec | static/js/app.js:242 | "Sem descrição" is shown when the description is absent or empty, and any other description is shown as it is |
| Client.ServerMessageOr | static/js/app.js:191 | the server's `error` is shown when it is a non-empty string, and the fallback otherwise (the comment form does the same at line 333) |
| UploadPage.InitialValid | static/js/app.js:109-117 | the page starts in a valid state |
| UploadPage.SelectKeepsValid | static/js/app.js:204-219 | adopting a file keeps the page valid |
| UploadPage.ChoiceKeepsValid | static/js/app.js:125-161 | drag, drop, pick and remove keep valid: exactly one of drop zone and preview is shown, the preview is shown exactly when a file is selected and describes it |
| UploadPage.SubmitKeepsValid | static/js/app.js:163-201 | submit and the settling of its request keep valid: the label follows the button, and the button stays disabled only while a request is out or after a success |
| UploadPage.ChoosingAFile | static/js/app.js:139-153 | a drop or pick with files selects the first one, hides the drop zone and shows its preview, and nothing else changes; with no files, only the highlight (drop) or the picker's list (pick) changes |
| UploadPage.LatestChoiceWins | static/js/app.js:139-153 | choosing again, by drop or by picker, replaces the earlier choice |
| UploadPage.RemoveForgets | static/js/app.js:156-161 | remove forgets the file, empties the picker, hides the preview and shows the drop zone, and nothing else changes; a later submit sends nothing |
| UploadPage.SubmitSpec | static/js/app.js:166-177 | a submit with no file only adds the "Selecione um arquivo" error toast; with a file, it disables the button, shows "Enviando..." and sends the file, title and description as typed |
| UploadPage.OutcomeSpec | static/js/app.js:179-200 | after a sent request, a failure (a thrown fetch, a body that is not JSON, or a response that is not ok) restores the button and label exactly as before the submit and shows one error toast, with the server's message when there is one; a success shows one success toast, schedules the redirect and keeps the button disabled |
| UploadPage.UploadForm.constructor | static/js/app.js:109-117 | the form starts in the page's initial state |
| UploadPage.UploadForm.Adopt | static/js/app.js:142-143 | a method performing the select transition |
| UploadPage.UploadForm.DragOver | static/js/app.js:125-130 | a method performing the drag-over transition |
| UploadPage.UploadForm.DragLeave | static/js/app.js:132-137 | a method performing the drag-leave transition |
| UploadPage.UploadForm.Drop | static/js/app.js:132-145 | a method performing the drop transition |
| UploadPage.UploadForm.Pick | static/js/app.js:148-153 | a method performing the picker transition |
| UploadPage.UploadForm.Remove | static/js/app.js:156-161 | a method performing the remove transition |
| UploadPage.UploadForm.Submit | static/js/app.js:163-183 | a method performing the submit transition; it returns a payload exactly when one is sent, and that payload holds the selected file |
| UploadPage.UploadForm.Settle | static/js/app.js:185-200 | a method performing the outcome transition |
| DocumentPage.LoadDocumentSpec | static/js/app.js:227-273 | a document is shown exactly when it came back ok and parsed; its image preview is shown exactly for jpg, jpeg and png in any case, under the document's title; its description is the placeholder exactly when it has none and the description itself otherwise; its badge reads the stored type in capitals and is the PDF badge exactly for a PDF; its name, file link and download link are the document's; a response that is not ok is "not found"; exactly the pages that are not shown come with a toast |
| DocumentPage.CommentGate | static/js/app.js:311-318 | a comment is posted exactly when the input is not all JavaScript whitespace, and then what is posted is the trimmed input, which neither starts nor ends with whitespace; otherwise only the "Escreva um comentário" toast is shown |
| DocumentPage.CommentOutcomeSpec | static/js/app.js:320-340 | in every outcome the button is enabled again and one toast is shown; the input is cleared and the comments reloaded exactly on an ok response |
| DocumentPage.CommentHandlersKeepValid | static/js/app.js:304-342 | the button is disabled exactly while a comment is out |
| DocumentPage.CommentForm.constructor | static/js/app.js:304-306 | the form starts empty, with the button enabled |
| DocumentPage.CommentForm.Edit | static/js/app.js:306 | a method performing the edit transition |
| DocumentPage.CommentForm.Submit | static/js/app.js:308-325 | a method performing the submit transition; it returns the post made: the trimmed input, sent to the document's comments path |
| DocumentPage.CommentForm.Settle | static/js/app.js:327-340 | a method performing the outcome transition |
| EndToEnd.UploadPageRequest | static/js/app.js:174-177 | (corrected) a request from the upload page is never refused for lacking a file; it is accepted exactly when the file is named with an allowed extension and the title is not blank; the icon and label shown before sending agree with the stored type's badge and label |
| EndToEnd.StoredTypeAgrees | app.py:189-200 | for a stored type, the download's media type, the image preview and the badge agree |
| EndToEnd.AcceptedTypeIsStoredType | app.py:110 | (corrected) an accepted upload's type is a lowercase whitelisted extension |
| EndToEnd.DetailOfUpload | static/js/app.js:239-259 | (corrected) the document page of a new upload shows the stripped title, the sanitised name, the stripped description or "Sem descrição", the upload page's label as its badge, an image preview exactly for image media types, and a link leading to the stored object |
| EndToEnd.DeleteUndoesAcceptedUpload | app.py:208-235 | (corrected) a delete right after an upload through the handler restores the bucket and the table |
| EndToEnd.PostedCommentAccepted | app.py:158-164 | a comment posted by the form is stored exactly when it is not all Python whitespace, and then stored stripped; otherwise the reply is the 400 message |
| EndToEnd.BlankCommentsDiffer | static/js/app.js:311-312 | the form and the handler disagree on blanks: a lone U+001C passes the form and is refused by the handler, while a lone U+FEFF is held back by the form although the handler would store it |
| Text.StripBlankIff | app.py:103-104 | Python's strip gives "" exactly when every character is Python whitespace; otherwise the result neither starts nor ends with whitespace |
| Text.TrimBlankIff | static/js/app.js:311-312 | JavaScript's trim gives "" exactly when every character is JavaScript whitespace; otherwise the result neither starts nor ends with whitespace |
| Text.RSplitOnceAfterLast | app.py:40 | the second part of `rsplit('.', 1)` is the text after the last '.' |
| Text.LastOfSplit | static/js/app.js:211 | the last piece of `split(sep)` is the text after the last separator, or the whole string when there is none |
| Text.JoinSplit | app.py:224 | joining the pieces of `split(sep)` with the separator gives the string back |
| Text.LowerUpper | static/js/app.js:211-213 | lowercasing ignores an earlier uppercasing, and the reverse |

## Left out

- HTTP, routing and templates (`render_template`, the page routes, `MAX_CONTENT_LENGTH`, `load_dotenv`) are not modelled. The browser's `fetch` and the server's JSON replies appear only as their outcomes.
- The Supabase client is modelled only as the abstract store above. The model does not cover:
  - `get_supabase` and its missing-configuration error;
  - `get_public_url`, which builds the URL locally from the key and is taken never to raise.
- Api.PublicUrl: the public URL is assumed to be `publicPrefix + "/" + key`, with nothing after the key. Api.StorageKeyOfPublicUrl, Store.StoreUploadOutcomes, Store.DeleteUndoesUpload and EndToEnd.DeleteUndoesAcceptedUpload rest on this. If the storage client appended anything after the key, such as a query string ('?'), then `split('/')[-1]` at app.py:224 would not give the key back, and a delete would leave the object in the bucket.
- Api.UploadAccepted, Store.UploadOutcomes, Store.Backend.Upload, EndToEnd.UploadPageRequest, EndToEnd.AcceptedTypeIsStoredType, EndToEnd.DetailOfUpload and EndToEnd.DeleteUndoesAcceptedUpload run the corrected upload rule (Api.ValidateUpload). As written, app.py answers 500 and stores nothing when `secure_filename` leaves no '.' in the name, as for ".pdf" or "文件.pdf"; Store.UploadStepAsWritten and Store.UploadAsWrittenOutcomes model that path.
- Store.UploadOutcomes: see the line above; the request it calls accepted is one the corrected rule accepts.
- Store.Backend.Upload: see the line above; the server object runs the corrected rule.
- EndToEnd.UploadPageRequest: see the line above; a page request accepted by the corrected rule can get a 500 from app.py.
- EndToEnd.AcceptedTypeIsStoredType: proved for the corrected rule, which takes the type from the whitelisted name. As written, app.py:110 takes it from the sanitised name, so the type is whitelisted only when the sanitiser keeps the last extension.
- EndToEnd.DetailOfUpload: proved for the corrected rule. As written, the badge equals the upload page's label only when the sanitiser keeps the last extension.
- EndToEnd.DeleteUndoesAcceptedUpload: proved for the corrected rule. As written, the key is `<uuid>.<type>` with the type taken from the sanitised name; if that type held a '/', the delete would derive another key and leave the object in the bucket.
- Api.ValidateUploadAsWritten: `secure_filename` is a parameter with no stated properties. The three lines above hold for app.py as written only if, whenever its output keeps a '.', the text after the last '.' is the client name's last extension and holds no '/'. Werkzeug's sanitiser is taken to behave so, but that is not proved here. Under that premise, Api.UploadFixAgreesWhenExtensionKept and Store.UploadAsWrittenOutcomes show that the as-written step equals the corrected one.
- The model takes it that the store refuses an object key or a row id that is already taken, as Supabase does by default. Row ids and `created_at` are drawn by the database and are parameters.
- `get_documents`, `get_document`, `get_comments`, `loadDocuments`, `loadComments` and the list page are read-only listings and are not modelled. Their ordering by `created_at` and their HTML templating are out of scope.
- The client's `deleteDocument` and its `confirm` dialog are not modelled. The server's delete is.
- `formatDate`, `formatDateShort` and `formatFileSize` are not modelled, since they depend on locale and floating point. The preview keeps the file size as a number.
- `escapeHtml` and `innerHTML` are not modelled, because they delegate to the browser's DOM serialisation.
- Timers are not modelled: toasts disappearing after 3 s, and redirects after 1 s or 1.5 s. A redirect is a flag.
- The `DOMContentLoaded` router, the `DOCUMENT_ID` global and the templates' initial markup are not modelled. The model starts from the initial state the templates give: drop zone shown, preview hidden, button enabled with "Enviar Documento".
- Clicking the drop zone only opens the native file dialog. The dialog's result arrives as the picker's `change` event, which is modelled.
- Races between requests in flight are not modelled. A submit while the submit button is disabled is not delivered by the browser, so each form has at most one request out.
- Text.Lower, Text.Upper: case mapping is modelled for ASCII letters only. Python's `lower()` and JavaScript's `toLowerCase()`/`toUpperCase()` also map other letters, and a few of those change length. Every whitelisted extension is ASCII, and no message is case-mapped.
- Client.ServerMessageOr: an `error` member of a reply body that is not a string is not modelled; the body's `error` is either a string or absent.
- Api.ValidateComment: a JSON body whose `content` is not a string is a 500, because `.strip` raises. Whether `get_json()` raises or returns None on a body that is not JSON depends on the Flask version. The model takes it to raise, which gives 500.
- Api.DownloadReply: the fetched body is served whatever its HTTP status. This matches the code, which never checks `r.status_code`.
- Store.Backend.Download: the `succeeding` argument covers only the row read. The fetch outcome is the separate `fetched` argument.

## Findings

| source | as written | input that shows it | evidently intended | confidence | as-written member | corrected member |
|---|---|---|---|---|---|---|
| app.py:100-110 | the whitelist is checked on the client's file name, but the extension is taken from `secure_filename` of that name with `rsplit('.', 1)[1]`; when the sanitised name has no '.', this raises IndexError and the upload answers 500 | a file named "文件.pdf" with a non-blank title: werkzeug's `secure_filename` keeps only the ASCII "pdf" | every upload that passes the four checks is stored, with the extension that passed the whitelist | not executed; the sanitiser's output for this name is werkzeug's documented ASCII-only behaviour, taken as the lemma's premise | Api.ValidateUploadAsWritten (shown by Api.UploadAsWrittenFailsOnNonAsciiName and Api.UploadAsWrittenFailsWithoutDot; Store.UploadStepAsWritten, compared by Store.UploadAsWrittenOutcomes) | Api.ValidateUpload (Api.UploadAccepted; Store.Backend.Upload uses it) |
