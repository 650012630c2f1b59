/** The pure helpers of static/js/app.js, and the shapes the page handlers
    share: toasts and the outcome of a `fetch`. */
module Client {
  import opened Wrappers
  import opened Text

  // ---------------------------------------------------------------------
  // getBadgeClass

  const PdfBadge := "file-badge file-badge--pdf"
  const JpgBadge := "file-badge file-badge--jpg"

  /** `getBadgeClass`: the PDF badge for "pdf" in any case, the image badge
      for every other type. */
  function BadgeClass(fileType: string): string {
    if Lower(fileType) == "pdf" then PdfBadge else JpgBadge
  }

  /** The badge is the PDF one exactly when the lowercased type is "pdf",
      the image one otherwise, and types that differ only in case get the
      same badge. */
  lemma {:induction false} BadgeClassSpec(t: string, t': string)
    ensures BadgeClass(t) == PdfBadge <==> Lower(t) == "pdf"
    ensures BadgeClass(t) == JpgBadge <==> Lower(t) != "pdf"
    ensures Lower(t) == Lower(t') ==> BadgeClass(t) == BadgeClass(t')
    ensures BadgeClass(Upper(t)) == BadgeClass(t) && BadgeClass(Lower(t)) == BadgeClass(t)
  {
    assert PdfBadge != JpgBadge by { assert PdfBadge[23] != JpgBadge[23]; }
    LowerUpper(t);
  }

  // ---------------------------------------------------------------------
  // showFilePreview

  /** `file.name.split('.').pop().toUpperCase()`: the label of the chosen
      file's icon. */
  function ExtensionLabel(name: string): string {
    Upper(Last(Split(name, '.')))
  }

  /** `getBadgeClass(ext.toLowerCase())`: the class of the chosen file's icon. */
  function IconClass(name: string): string {
    BadgeClass(Lower(ExtensionLabel(name)))
  }

  /** The label is the text after the last '.' of the name, uppercased (the
      whole name when it has no '.'), so it holds no '.'; the icon class is
      the badge of that text, whatever its case. */
  lemma {:induction false} ExtensionLabelSpec(name: string)
    ensures ExtensionLabel(name) == Upper(AfterLast(name, '.'))
    ensures '.' !in name ==> ExtensionLabel(name) == Upper(name)
    ensures '.' !in ExtensionLabel(name)
    ensures IconClass(name) == BadgeClass(AfterLast(name, '.'))
  {
    LastOfSplit(name, '.');
    var e := AfterLast(name, '.');
    LowerKeeps(e, '.');
    assert forall i :: 0 <= i < |e| ==> (Upper(e)[i] == '.' <==> e[i] == '.');
    LowerUpper(e);
    BadgeClassSpec(Lower(Upper(e)), e);
    LowerUpper(Upper(e));
  }

  // ---------------------------------------------------------------------
  // loadDocument

  const ImageTypes: seq<string> := ["jpg", "jpeg", "png"]

  /** `['jpg', 'jpeg', 'png'].includes(doc.file_type.toLowerCase())`. */
  predicate ShowsImagePreview(fileType: string) {
    Lower(fileType) in ImageTypes
  }

  /** The image preview is shown exactly for the image types, in any case;
      an image always carries the image badge. */
  lemma {:induction false} ImagePreviewSpec(t: string)
    ensures ShowsImagePreview(t) <==> Lower(t) == "jpg" || Lower(t) == "jpeg" || Lower(t) == "png"
    ensures ShowsImagePreview(t) ==> BadgeClass(t) == JpgBadge
    ensures ShowsImagePreview(Upper(t)) == ShowsImagePreview(t)
  {
    LowerUpper(t);
    BadgeClassSpec(t, t);
  }

  const NoDescription := "Sem descrição"

  /** `doc.description || 'Sem descrição'`: null and the empty string are
      both falsy. */
  function DescriptionText(description: Option<string>): string {
    if description.Some? && description.value != "" then description.value else NoDescription
  }

  /** The placeholder is shown exactly when the description is absent or
      empty (or is the placeholder itself); any other description is shown
      as it is. */
  lemma {:induction false} DescriptionTextSpec(description: Option<string>)
    ensures description.None? || description == Some("") ==> DescriptionText(description) == NoDescription
    ensures description.Some? && description.value != "" ==> DescriptionText(description) == description.value
    ensures DescriptionText(description) != ""
  {
  }

  // ---------------------------------------------------------------------
  // Toasts and fetch outcomes

  datatype ToastKind = Success | Error

  /** A toast shown by `showToast(message, type)`. */
  datatype Toast = Toast(message: string, kind: ToastKind)

  /** What `response.json()` gives: a body that is not JSON (parsing
      throws), or an object whose `error` member is a string or absent. */
  datatype ResponseBody = NotJson | JsonBody(error: Option<string>)

  /** The outcome of a `fetch`: a response with its `ok` flag and body, or
      a rejection (network failure). */
  datatype FetchOutcome = Responded(ok: bool, body: ResponseBody) | Thrown

  /** `data.error || fallback`. */
  function ServerMessageOr(error: Option<string>, fallback: string): (r: string)
    ensures error.Some? && error.value != "" ==> r == error.value
    ensures error.None? || error == Some("") ==> r == fallback
  {
    if error.Some? && error.value != "" then error.value else fallback
  }
}
