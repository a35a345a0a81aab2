/** The values that travel between the handlers and the dispatcher: the
    response descriptor a handler resolves with and the value it rejects with. */
module Messages {
  import opened Basics

  /** A descriptor body: absent, a string, or a readable stream of a file's bytes. */
  datatype Body = NoBody | Text(text: string) | Stream(data: seq<byte>)

  /** The `{ status, body, type }` object of a handler; None marks an absent property. */
  datatype Descriptor = Descriptor(status: Option<int>, body: Body, contentType: Option<string>)

  /** A thrown value: the `status`, `body` and `type` properties it carries
      (None where it has none) and `String(value)`. */
  datatype Thrown = Thrown(fields: Descriptor, shown: string)

  /** What a handler's promise settles to. */
  type Outcome = Result<Descriptor, Thrown>

  /** The plain object `{ status: 403, body: "Forbidden" }` thrown by the containment check. */
  const Forbidden: Thrown := Thrown(Descriptor(Some(403), Text("Forbidden"), None), "[object Object]")

  /** The URIError that decodeURIComponent throws on a malformed escape. */
  const UriMalformed: Thrown := Thrown(Descriptor(None, NoBody, None), "URIError: URI malformed")

  /** An Error object with no `status` property, shown as `text`. */
  function Raised(text: string): (t: Thrown)
    ensures t.fields.status.None? && t.shown == text
  {
    Thrown(Descriptor(None, NoBody, None), text)
  }
}
