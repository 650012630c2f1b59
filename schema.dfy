/** The records that cross the HTTP boundary: JSON request bodies as the
    server parses them, and the rows of the `documents` and `comments`
    tables as both the server and the browser see them. */
module Schema {
  import opened Wrappers

  /** A parsed JSON value, as Flask's `request.get_json()` returns it. */
  datatype Json =
    | JNull
    | JBool(b: bool)
    | JNumber(n: real)
    | JString(s: string)
    | JArray(items: seq<Json>)
    | JObject(fields: map<string, Json>)

  /** Python truthiness of a parsed JSON value (`if not data`). */
  predicate Truthy(j: Json) {
    match j
    case JNull => false
    case JBool(b) => b
    case JNumber(n) => n != 0.0
    case JString(s) => s != ""
    case JArray(items) => items != []
    case JObject(fields) => fields != map[]
  }

  /** A row of the `documents` table (its `created_at` column is left out). */
  datatype DocumentRow = DocumentRow(
    id: string,
    title: string,
    description: Option<string>,
    fileUrl: string,
    fileName: string,
    fileType: string)

  /** A row of the `comments` table (its `created_at` column is left out). */
  datatype CommentRow = CommentRow(id: string, documentId: string, content: string)
}
