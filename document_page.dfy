/** The document page of static/js/app.js: what `loadDocument` writes for
    a fetched document, and the comment form that `setupCommentForm`
    wires up. */
module DocumentPage {
  import opened Wrappers
  import opened Text
  import opened Schema
  import opened Client

  // ---------------------------------------------------------------------
  // loadDocument

  datatype ImagePreview = ImagePreview(src: string, alt: string)

  /** The texts and links `loadDocument` writes into the page. */
  datatype DocumentView = DocumentView(
    title: string,
    fileName: string,
    description: string,
    badgeText: string,
    badgeClass: string,
    viewHref: string,
    downloadHref: string,
    downloadName: string,
    preview: Option<ImagePreview>)

  /** The fetch of the document: a rejection, or a response with its `ok`
      flag and, when its body parses as a document, the document. */
  datatype DocumentFetch = FetchThrown | FetchResponded(ok: bool, doc: Option<DocumentRow>)

  /** What the page ends up showing. */
  datatype DetailOutcome =
    | Shown(view: DocumentView)
    /** "Documento não encontrado", then back to the list. */
    | NotFound
    /** "Erro ao carregar documento". */
    | LoadFailed

  const NotFoundMessage := "Documento não encontrado"
  const LoadFailedMessage := "Erro ao carregar documento"

  function DownloadPath(docId: string): string {
    "/api/documents/" + docId + "/download"
  }

  /** The path a comment on the document is posted to. */
  function CommentsPath(docId: string): string {
    "/api/documents/" + docId + "/comments"
  }

  /** The page for a fetched document. */
  function RenderDocument(docId: string, doc: DocumentRow): DocumentView {
    DocumentView(doc.title, doc.fileName, DescriptionText(doc.description),
      Upper(doc.fileType), BadgeClass(doc.fileType), doc.fileUrl, DownloadPath(docId), doc.fileName,
      if ShowsImagePreview(doc.fileType) then Some(ImagePreview(doc.fileUrl, doc.title)) else None)
  }

  /** `loadDocument`: a response that is not ok means not found; a fetch
      that throws, or a body that does not parse, lands in the `catch`. */
  function LoadDocument(docId: string, fetch: DocumentFetch): DetailOutcome {
    match fetch
    case FetchThrown => LoadFailed
    case FetchResponded(ok, doc) =>
      if !ok then NotFound
      else if doc.None? then LoadFailed
      else Shown(RenderDocument(docId, doc.value))
  }

  /** The toast a load shows, if any. */
  function LoadToast(r: DetailOutcome): Option<Toast> {
    match r
    case Shown(_) => None
    case NotFound => Some(Toast(NotFoundMessage, Error))
    case LoadFailed => Some(Toast(LoadFailedMessage, Error))
  }

  /** A document is shown exactly when it came back ok and parsed. Its
      image preview is shown exactly for the image types and then shows
      the file under the document's title; its description is the
      placeholder exactly when it has none, and the description itself
      otherwise; its badge reads the stored type in capitals, and is the
      PDF badge exactly for a PDF whatever the case of the stored type;
      its name and links are the document's. */
  lemma {:induction false} LoadDocumentSpec(docId: string, fetch: DocumentFetch)
    ensures LoadDocument(docId, fetch).Shown? <==> fetch.FetchResponded? && fetch.ok && fetch.doc.Some?
    ensures LoadDocument(docId, fetch).Shown? ==>
      var doc := fetch.doc.value;
      var v := LoadDocument(docId, fetch).view;
      && (v.preview.Some? <==> Lower(doc.fileType) in ["jpg", "jpeg", "png"])
      && (v.preview.Some? ==> v.preview.value == ImagePreview(doc.fileUrl, doc.title) && v.badgeClass == JpgBadge)
      && (v.description == NoDescription <==> doc.description.None? || doc.description == Some("") || doc.description == Some(NoDescription))
      && (doc.description.Some? && doc.description.value != "" ==> v.description == doc.description.value)
      && v.badgeText == Upper(doc.fileType)
      && v.badgeClass == BadgeClass(doc.fileType) == BadgeClass(v.badgeText)
      && (v.badgeClass == PdfBadge <==> Lower(doc.fileType) == "pdf")
      && v.title == doc.title && v.fileName == doc.fileName && v.viewHref == doc.fileUrl
      && v.downloadHref == DownloadPath(docId) && v.downloadName == doc.fileName
    ensures LoadDocument(docId, fetch).NotFound? <==> fetch.FetchResponded? && !fetch.ok
    ensures (LoadToast(LoadDocument(docId, fetch)).None? <==> LoadDocument(docId, fetch).Shown?)
  {
    if fetch.FetchResponded? && fetch.ok && fetch.doc.Some? {
      var doc := fetch.doc.value;
      ImagePreviewSpec(doc.fileType);
      BadgeClassSpec(Upper(doc.fileType), doc.fileType);
    }
  }

  // ---------------------------------------------------------------------
  // setupCommentForm

  const WriteComment := "Escreva um comentário"
  const CommentAdded := "Comentário adicionado!"
  const CommentFailed := "Erro ao adicionar comentário"

  datatype CommentFormState = CommentFormState(
    input: string,
    submitDisabled: bool,
    /** A comment has been posted and its outcome has not arrived. */
    awaiting: bool,
    toasts: seq<Toast>,
    /** The contents posted, in order. */
    posted: seq<string>,
    /** How many times `loadComments` was called again. */
    commentReloads: nat)

  /** A `POST` of `{ content }` as JSON to `path`. */
  datatype CommentPost = CommentPost(path: string, content: string)

  /** The form as the page renders it. */
  const InitialCommentForm := CommentFormState("", false, false, [], [], 0)

  /** The button is disabled exactly while a comment is out. */
  predicate CommentFormValid(s: CommentFormState) {
    s.submitDisabled == s.awaiting
  }

  /** Typing into the input. */
  function AfterEdit(s: CommentFormState, text: string): CommentFormState {
    s.(input := text)
  }

  /** `submit`: the trimmed input is posted unless it is empty. A form
      whose submit button is disabled is not submitted by the browser. */
  function AfterCommentSubmit(s: CommentFormState): CommentFormState {
    if s.submitDisabled then s
    else
      var content := Trim(s.input);
      if |content| == 0 then s.(toasts := s.toasts + [Toast(WriteComment, Error)])
      else s.(submitDisabled := true, awaiting := true, posted := s.posted + [content])
  }

  /** The rest of the handler once the post settles: an ok response clears
      the input and reloads the comments without reading the body; any
      other response has its body read for the message (a body that is not
      JSON lands in the `catch`); the `finally` enables the button in every
      case. */
  function AfterCommentOutcome(s: CommentFormState, outcome: FetchOutcome): CommentFormState {
    if !s.awaiting then s
    else
      var settled := s.(submitDisabled := false, awaiting := false);
      match outcome
      case Thrown => settled.(toasts := s.toasts + [Toast(CommentFailed, Error)])
      case Responded(ok, body) =>
        if ok then settled.(input := "", toasts := s.toasts + [Toast(CommentAdded, Success)], commentReloads := s.commentReloads + 1)
        else
          match body
          case NotJson => settled.(toasts := s.toasts + [Toast(CommentFailed, Error)])
          case JsonBody(error) => settled.(toasts := s.toasts + [Toast(ServerMessageOr(error, CommentFailed), Error)])
  }

  /** The gate: a comment is posted exactly when the input holds something
      besides JavaScript whitespace, and then what is posted is the input
      trimmed, which neither starts nor ends with whitespace; otherwise
      only an error toast is shown. */
  lemma {:induction false} CommentGate(s: CommentFormState)
    requires !s.submitDisabled
    ensures var r := AfterCommentSubmit(s);
      && (|r.posted| == |s.posted| + 1 <==> !AllWith(s.input, IsJsSpace))
      && (AllWith(s.input, IsJsSpace) ==> r == s.(toasts := s.toasts + [Toast(WriteComment, Error)]))
      && (!AllWith(s.input, IsJsSpace) ==>
            && r.posted == s.posted + [Trim(s.input)]
            && Trim(s.input) != ""
            && !IsJsSpace(Trim(s.input)[0]) && !IsJsSpace(Trim(s.input)[|Trim(s.input)| - 1])
            && r.submitDisabled && r.toasts == s.toasts && r.input == s.input)
  {
    TrimBlankIff(s.input);
  }

  /** Whatever the outcome of a post, the button is enabled again and
      exactly one toast is shown; the input is cleared and the comments
      reloaded exactly on an ok response, and the input is kept otherwise. */
  lemma {:induction false} CommentOutcomeSpec(s: CommentFormState, outcome: FetchOutcome)
    requires s.awaiting
    ensures var r := AfterCommentOutcome(s, outcome);
      var ok := outcome.Responded? && outcome.ok;
      && !r.submitDisabled && !r.awaiting
      && |r.toasts| == |s.toasts| + 1 && r.toasts[..|s.toasts|] == s.toasts
      && (r.toasts[|s.toasts|].kind == Success <==> ok)
      && r.input == (if ok then "" else s.input)
      && r.commentReloads == (if ok then s.commentReloads + 1 else s.commentReloads)
      && r.posted == s.posted
  {
    var r := AfterCommentOutcome(s, outcome);
    assert r.toasts[..|s.toasts|] == s.toasts;
  }

  /** The form starts valid and every handler keeps it valid. */
  lemma {:induction false} CommentHandlersKeepValid(s: CommentFormState, text: string, outcome: FetchOutcome)
    requires CommentFormValid(s)
    ensures CommentFormValid(InitialCommentForm)
    ensures CommentFormValid(AfterEdit(s, text))
    ensures CommentFormValid(AfterCommentSubmit(s))
    ensures CommentFormValid(AfterCommentOutcome(s, outcome))
  {
  }

  /** The comment form: the input's value, the submit button's flag, and
      what the handler has done. */
  class CommentForm {
    const docId: string
    var input: string
    var submitDisabled: bool
    var awaiting: bool
    var toasts: seq<Toast>
    var posted: seq<string>
    var commentReloads: nat

    ghost function State(): CommentFormState
      reads this
    {
      CommentFormState(input, submitDisabled, awaiting, toasts, posted, commentReloads)
    }

    constructor (docId: string)
      ensures this.docId == docId && State() == InitialCommentForm
    {
      this.docId := docId;
      input, submitDisabled, awaiting := "", false, false;
      toasts, posted, commentReloads := [], [], 0;
    }

    method Edit(text: string)
      modifies this
      ensures State() == AfterEdit(old(State()), text)
    {
      input := text;
    }

    /** Returns the post made, if any: the document's comments path and
        the content sent to it. */
    method Submit() returns (post: Option<CommentPost>)
      modifies this
      ensures State() == AfterCommentSubmit(old(State()))
      ensures post.Some? ==>
        && post.value.path == CommentsPath(docId)
        && posted == old(posted) + [post.value.content] && post.value.content == Trim(old(input))
      ensures post.None? ==> posted == old(posted)
    {
      post := None;
      ghost var s := State();
      if !submitDisabled {
        var trimmed := Trim(input);
        if |trimmed| == 0 {
          toasts := toasts + [Toast(WriteComment, Error)];
          assert State() == s.(toasts := s.toasts + [Toast(WriteComment, Error)]);
        } else {
          submitDisabled := true;
          awaiting := true;
          post := Some(CommentPost(CommentsPath(docId), trimmed));
          posted := posted + [trimmed];
          assert State() == s.(submitDisabled := true, awaiting := true, posted := s.posted + [trimmed]);
        }
      }
    }

    method Settle(outcome: FetchOutcome)
      modifies this
      ensures State() == AfterCommentOutcome(old(State()), outcome)
    {
      if awaiting {
        if outcome.Responded? && outcome.ok {
          input := "";
          toasts := toasts + [Toast(CommentAdded, Success)];
          commentReloads := commentReloads + 1;
        } else {
          var message := if outcome.Responded? && outcome.body.JsonBody?
                         then ServerMessageOr(outcome.body.error, CommentFailed) else CommentFailed;
          toasts := toasts + [Toast(message, Error)];
        }
        awaiting := false;
        submitDisabled := false;
      }
    }
  }
}
