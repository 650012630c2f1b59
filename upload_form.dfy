/** `setupUploadForm` of static/js/app.js: the upload page's event handlers
    and the state they share, namely the `selectedFile` slot of the
    closure, the DOM flags the handlers set (drop-zone highlight and
    visibility, preview visibility and contents, the submit button and its
    label), the toasts shown, the requests sent and the scheduled redirect.

    Each handler is a transition on `UploadState`; `UploadForm` holds the
    state in fields and runs the transitions in place. */
module UploadPage {
  import opened Wrappers
  import opened Text
  import opened Client

  /** A file the browser hands over (from a drop or the picker), with the
      media type the browser gives it (`file.type`). */
  datatype File = File(name: string, size: nat, mimeType: string, content: seq<bv8>)

  /** The form data the submit handler posts. */
  datatype UploadPayload = UploadPayload(file: File, title: string, description: string)

  /** What `showFilePreview` writes into the preview box. */
  datatype FilePreview = FilePreview(iconText: string, iconClass: string, fileName: string, fileSize: nat)

  const SubmitIdle := "Enviar Documento"
  const SubmitBusy := "Enviando..."
  const SelectFile := "Selecione um arquivo"
  const UploadDone := "Documento enviado com sucesso!"
  const UploadFailed := "Erro ao enviar documento"

  datatype UploadState = UploadState(
    selected: Option<File>,
    /** The files the picker input holds. */
    picker: seq<File>,
    dropZoneActive: bool,
    dropZoneShown: bool,
    previewShown: bool,
    preview: Option<FilePreview>,
    submitDisabled: bool,
    submitLabel: string,
    /** A request has been sent and its outcome has not arrived. */
    awaiting: bool,
    toasts: seq<Toast>,
    sent: seq<UploadPayload>,
    redirectScheduled: bool)

  /** The page as its template lays it out. */
  const Initial := UploadState(None, [], false, true, false, None, false, SubmitIdle, false, [], [], false)

  /** `showFilePreview(file)`. */
  function PreviewOf(f: File): FilePreview {
    FilePreview(ExtensionLabel(f.name), IconClass(f.name), f.name, f.size)
  }

  /** The invariant the handlers keep: exactly one of the drop zone and the
      preview is shown, the preview is shown exactly when a file is
      selected and describes that file, the label follows the button, and
      the button stays disabled only while a request is out or after a
      success. */
  predicate ValidState(s: UploadState) {
    && s.dropZoneShown == !s.previewShown
    && (s.previewShown <==> s.selected.Some?)
    && (s.selected.Some? ==> s.preview == Some(PreviewOf(s.selected.value)))
    && s.submitLabel == (if s.submitDisabled then SubmitBusy else SubmitIdle)
    && (s.awaiting ==> s.submitDisabled)
    && (s.submitDisabled ==> s.awaiting || s.redirectScheduled)
  }

  /** Adopting a file: `selectedFile = file; showFilePreview(file)`. */
  function Select(s: UploadState, f: File): UploadState {
    s.(selected := Some(f), preview := Some(PreviewOf(f)), dropZoneShown := false, previewShown := true)
  }

  /** `dragenter` / `dragover`. */
  function AfterDragOver(s: UploadState): UploadState {
    s.(dropZoneActive := true)
  }

  /** `dragleave`. */
  function AfterDragLeave(s: UploadState): UploadState {
    s.(dropZoneActive := false)
  }

  /** `drop`: both drop listeners, in the order they were added. */
  function AfterDrop(s: UploadState, files: seq<File>): UploadState {
    var s1 := s.(dropZoneActive := false);
    if |files| > 0 then Select(s1, files[0]) else s1
  }

  /** `change` on the picker, after the browser has set its file list. */
  function AfterPick(s: UploadState, files: seq<File>): UploadState {
    var s1 := s.(picker := files);
    if |files| > 0 then Select(s1, files[0]) else s1
  }

  /** The remove button. */
  function AfterRemove(s: UploadState): UploadState {
    s.(selected := None, picker := [], previewShown := false, dropZoneShown := true)
  }

  /** `submit`, with the values of the title and description inputs. A form
      whose submit button is disabled is not submitted by the browser. */
  function AfterSubmit(s: UploadState, title: string, description: string): UploadState {
    if s.submitDisabled then s
    else if s.selected.None? then s.(toasts := s.toasts + [Toast(SelectFile, Error)])
    else
      s.(submitDisabled := true, submitLabel := SubmitBusy, awaiting := true,
         sent := s.sent + [UploadPayload(s.selected.value, title, description)])
  }

  /** The rest of the submit handler once the request settles: the body is
      parsed before `response.ok` is looked at, so a body that is not JSON
      takes the `catch` path even on success. */
  function AfterUploadOutcome(s: UploadState, outcome: FetchOutcome): UploadState {
    if !s.awaiting then s
    else
      var failed := s.(submitDisabled := false, submitLabel := SubmitIdle, awaiting := false);
      match outcome
      case Thrown => failed.(toasts := s.toasts + [Toast(UploadFailed, Error)])
      case Responded(ok, body) =>
        match body
        case NotJson => failed.(toasts := s.toasts + [Toast(UploadFailed, Error)])
        case JsonBody(error) =>
          if ok then s.(awaiting := false, toasts := s.toasts + [Toast(UploadDone, Success)], redirectScheduled := true)
          else failed.(toasts := s.toasts + [Toast(ServerMessageOr(error, UploadFailed), Error)])
  }

  /** The outcomes that count as a success for the upload handler. */
  predicate UploadSucceeded(outcome: FetchOutcome) {
    outcome.Responded? && outcome.ok && outcome.body.JsonBody?
  }

  lemma InitialValid()
    ensures ValidState(Initial)
  {
  }

  /** Adopting a file keeps the page valid. */
  lemma {:induction false} SelectKeepsValid(s: UploadState, f: File)
    requires ValidState(s)
    ensures ValidState(Select(s, f))
  {
  }

  /** The drag, drop, pick and remove handlers keep the page valid. */
  lemma {:induction false} ChoiceKeepsValid(s: UploadState, files: seq<File>)
    requires ValidState(s)
    ensures ValidState(AfterDragOver(s)) && ValidState(AfterDragLeave(s))
    ensures ValidState(AfterDrop(s, files)) && ValidState(AfterPick(s, files))
    ensures ValidState(AfterRemove(s))
  {
    if |files| > 0 {
      SelectKeepsValid(s.(dropZoneActive := false), files[0]);
      SelectKeepsValid(s.(picker := files), files[0]);
    }
  }

  /** The submit handler, and the settling of its request, keep the page
      valid. */
  lemma {:induction false} SubmitKeepsValid(s: UploadState, title: string, description: string, outcome: FetchOutcome)
    requires ValidState(s)
    ensures ValidState(AfterSubmit(s, title, description))
    ensures ValidState(AfterUploadOutcome(s, outcome))
  {
  }

  /** A drop or pick with files adopts the first of them, hides the drop
      zone and shows its preview; the button, the toasts and the requests
      are untouched. One with no files changes only the highlight (drop) or
      the picker's list (pick). */
  lemma {:induction false} ChoosingAFile(s: UploadState, files: seq<File>)
    ensures |files| > 0 ==>
      && AfterDrop(s, files).selected == Some(files[0]) && AfterPick(s, files).selected == Some(files[0])
      && AfterDrop(s, files).preview == Some(PreviewOf(files[0]))
      && AfterDrop(s, files).previewShown && !AfterDrop(s, files).dropZoneShown
      && AfterDrop(s, files).(selected := s.selected, preview := s.preview, previewShown := s.previewShown,
                               dropZoneShown := s.dropZoneShown) == s.(dropZoneActive := false)
      && AfterPick(s, files).(selected := s.selected, preview := s.preview, previewShown := s.previewShown,
                               dropZoneShown := s.dropZoneShown) == s.(picker := files)
    ensures |files| == 0 ==> AfterDrop(s, files) == s.(dropZoneActive := false) && AfterPick(s, files) == s.(picker := [])
  {
  }

  /** Choosing again replaces the earlier choice: only the latest file is
      kept, whichever way each was chosen. */
  lemma {:induction false} LatestChoiceWins(s: UploadState, first: seq<File>, second: seq<File>)
    requires |second| > 0
    ensures AfterDrop(AfterPick(s, first), second).selected == Some(second[0])
    ensures AfterPick(AfterDrop(s, first), second).selected == Some(second[0])
    ensures AfterDrop(AfterDrop(s, first), second).preview == Some(PreviewOf(second[0]))
  {
  }

  /** Remove forgets the file, empties the picker, hides the preview and
      shows the drop zone, and nothing else changes; a submit after it
      sends nothing. */
  lemma {:induction false} RemoveForgets(s: UploadState, title: string, description: string)
    ensures AfterRemove(s).selected.None? && AfterRemove(s).picker == []
    ensures !AfterRemove(s).previewShown && AfterRemove(s).dropZoneShown
    ensures AfterRemove(s).(selected := s.selected, picker := s.picker, previewShown := s.previewShown,
                            dropZoneShown := s.dropZoneShown) == s
    ensures AfterSubmit(AfterRemove(s), title, description).sent == s.sent
  {
  }

  /** A submit with no file sends nothing, shows one error toast and
      leaves the button and its label as they were; a submit with a file
      disables the button, shows "Enviando..." and sends the file with the
      title and description as typed. */
  lemma {:induction false} SubmitSpec(s: UploadState, title: string, description: string)
    requires ValidState(s) && !s.submitDisabled
    ensures s.selected.None? ==> AfterSubmit(s, title, description) == s.(toasts := s.toasts + [Toast(SelectFile, Error)])
    ensures s.selected.Some? ==>
      var r := AfterSubmit(s, title, description);
      && r.submitDisabled && r.submitLabel == SubmitBusy && r.awaiting
      && r.sent == s.sent + [UploadPayload(s.selected.value, title, description)]
      && r.toasts == s.toasts && r.selected == s.selected
  {
  }

  /** After a submit that sent a request, a failure (a thrown fetch, a body
      that is not JSON, or a response that is not ok) puts the button and
      its label back exactly as they were before the submit and shows one
      error toast, the server's message when it gave one; a success shows
      one success toast, schedules the redirect and leaves the button
      disabled. */
  lemma {:induction false} OutcomeSpec(s: UploadState, title: string, description: string, outcome: FetchOutcome)
    requires ValidState(s) && !s.submitDisabled && s.selected.Some?
    ensures var r := AfterUploadOutcome(AfterSubmit(s, title, description), outcome);
      && r.sent == s.sent + [UploadPayload(s.selected.value, title, description)]
      && !r.awaiting
      && |r.toasts| == |s.toasts| + 1 && r.toasts[..|s.toasts|] == s.toasts
      && (UploadSucceeded(outcome) ==>
            r.submitDisabled && r.submitLabel == SubmitBusy && r.redirectScheduled
            && r.toasts[|s.toasts|] == Toast(UploadDone, Success))
      && (!UploadSucceeded(outcome) ==>
            r.submitDisabled == s.submitDisabled && r.submitLabel == s.submitLabel
            && r.redirectScheduled == s.redirectScheduled
            && r.toasts[|s.toasts|].kind == Error
            && r.toasts[|s.toasts|].message ==
                 (if outcome.Responded? && !outcome.ok && outcome.body.JsonBody?
                  then ServerMessageOr(outcome.body.error, UploadFailed) else UploadFailed))
  {
    var t := AfterSubmit(s, title, description);
    assert t.awaiting;
    var r := AfterUploadOutcome(t, outcome);
    assert r.toasts[..|s.toasts|] == s.toasts;
  }

  /** The upload page: its fields are the closure's `selectedFile` and the
      DOM state the handlers write. Each handler method performs its
      transition; the lemmas above say what the transitions keep. */
  class UploadForm {
    var selected: Option<File>
    var picker: seq<File>
    var dropZoneActive: bool
    var dropZoneShown: bool
    var previewShown: bool
    var preview: Option<FilePreview>
    var submitDisabled: bool
    var submitLabel: string
    var awaiting: bool
    var toasts: seq<Toast>
    var sent: seq<UploadPayload>
    var redirectScheduled: bool

    ghost function State(): UploadState
      reads this
    {
      UploadState(selected, picker, dropZoneActive, dropZoneShown, previewShown, preview,
                  submitDisabled, submitLabel, awaiting, toasts, sent, redirectScheduled)
    }

    constructor ()
      ensures State() == Initial
    {
      selected, picker := None, [];
      dropZoneActive, dropZoneShown, previewShown, preview := false, true, false, None;
      submitDisabled, submitLabel, awaiting := false, SubmitIdle, false;
      toasts, sent, redirectScheduled := [], [], false;
    }

    /** `showFilePreview` and the assignment before it. */
    method Adopt(f: File)
      modifies this
      ensures State() == Select(old(State()), f)
    {
      selected := Some(f);
      preview := Some(PreviewOf(f));
      dropZoneShown := false;
      previewShown := true;
    }

    method DragOver()
      modifies this
      ensures State() == AfterDragOver(old(State()))
    {
      dropZoneActive := true;
    }

    method DragLeave()
      modifies this
      ensures State() == AfterDragLeave(old(State()))
    {
      dropZoneActive := false;
    }

    method Drop(files: seq<File>)
      modifies this
      ensures State() == AfterDrop(old(State()), files)
    {
      dropZoneActive := false;
      if |files| > 0 {
        Adopt(files[0]);
      }
    }

    method Pick(files: seq<File>)
      modifies this
      ensures State() == AfterPick(old(State()), files)
    {
      picker := files;
      if |files| > 0 {
        Adopt(files[0]);
      }
    }

    method Remove()
      modifies this
      ensures State() == AfterRemove(old(State()))
    {
      selected := None;
      picker := [];
      previewShown := false;
      dropZoneShown := true;
    }

    /** Returns the payload posted, if any. */
    method Submit(title: string, description: string) returns (posted: Option<UploadPayload>)
      modifies this
      ensures State() == AfterSubmit(old(State()), title, description)
      ensures posted.Some? <==> |sent| == |old(sent)| + 1
      ensures posted.Some? ==> sent == old(sent) + [posted.value] && posted.value.file == old(selected).value
    {
      posted := None;
      if submitDisabled {
      } else if selected.None? {
        toasts := toasts + [Toast(SelectFile, Error)];
      } else {
        submitDisabled := true;
        submitLabel := SubmitBusy;
        awaiting := true;
        posted := Some(UploadPayload(selected.value, title, description));
        sent := sent + [posted.value];
      }
    }

    method Settle(outcome: FetchOutcome)
      modifies this
      ensures State() == AfterUploadOutcome(old(State()), outcome)
    {
      if awaiting {
        awaiting := false;
        if UploadSucceeded(outcome) {
          toasts := toasts + [Toast(UploadDone, Success)];
          redirectScheduled := true;
        } else {
          var message := if outcome.Responded? && !outcome.ok && outcome.body.JsonBody?
                         then ServerMessageOr(outcome.body.error, UploadFailed) else UploadFailed;
          toasts := toasts + [Toast(message, Error)];
          submitDisabled := false;
          submitLabel := SubmitIdle;
        }
      }
    }
  }
}
