/** The request pipeline of file_server.js: pick the handler for the request
    method, turn a rejection into a descriptor (`.catch`), and write the
    descriptor out with its defaults (`.then`). */
module Server {
  import opened Basics
  import opened Messages
  import Paths
  import Fs
  import opened Handlers

  /** What `methods[request.method] || notAllowed` yields. */
  datatype Handler = Handle(verb: Verb) | Refuse

  /** The handler for a method name: the table entry when there is one,
      `notAllowed` for every other name. */
  function Select(methodName: string): (h: Handler)
    ensures h.Refuse? <==> methodName !in {"GET", "PUT", "DELETE"}
    ensures h.Handle? ==>
              && (h.verb == GET <==> methodName == "GET")
              && (h.verb == PUT <==> methodName == "PUT")
              && (h.verb == DELETE <==> methodName == "DELETE")
  {
    if methodName in Methods then Handle(Methods[methodName]) else Refuse
  }

  /** `notAllowed`: the descriptor for a method the table does not hold,
      a 405 whose text names the method. */
  function NotAllowed(methodName: string): (d: Descriptor)
    ensures d.status == Some(405) && d.contentType.None? && d.body.Text?
    ensures Paths.IsPrefix("Method " + methodName + " ", d.body.text)
  {
    Descriptor(Some(405), Text("Method " + methodName + " not allowed."), None)
  }

  /** The `.catch` step: a fulfilled descriptor passes through; a rejection
      whose `status` is set is used as the descriptor itself; any other
      rejection becomes a 500 whose body is the rejection as a string. */
  function Recover(o: Outcome): (d: Descriptor)
    ensures o.Err? ==> d.status.Some?
    ensures o.Ok? ==> d == o.value
    ensures o.Err? && o.error.fields.status.Some? ==> d == o.error.fields
    ensures o.Err? && o.error.fields.status.None? ==>
              d.status == Some(500) && d.body == Text(o.error.shown) && d.contentType.None?
  {
    match o
    case Ok(d) => d
    case Err(t) => if t.fields.status.Some? then t.fields else Descriptor(Some(500), Text(t.shown), None)
  }

  /** What the response carries after its head: a piped stream or the text
      given to `response.end`. */
  datatype Payload = Piped(data: seq<byte>) | Ended(text: string)

  /** A written response: status line, Content-Type header and payload. */
  datatype Response = Response(status: int, contentType: string, payload: Payload)

  /** The `.then` step: status 200 and type "text/plain" stand in for
      missing fields; a stream body is piped, any other body is passed to
      `end`, an absent body ending the response empty. */
  function Finish(d: Descriptor): (r: Response)
    ensures d.status.Some? ==> r.status == d.status.value
    ensures d.status.None? ==> r.status == 200
    ensures d.contentType.Some? ==> r.contentType == d.contentType.value
    ensures d.contentType.None? ==> r.contentType == "text/plain"
    ensures r.payload.Piped? <==> d.body.Stream?
    ensures d.body.Stream? ==> r.payload.data == d.body.data
    ensures d.body.Text? ==> r.payload == Ended(d.body.text)
    ensures d.body.NoBody? ==> r.payload == Ended("")
  {
    var payload := match d.body
      case Stream(data) => Piped(data)
      case Text(text) => Ended(text)
      case NoBody => Ended("");
    Response(d.status.GetOr(200), d.contentType.GetOr("text/plain"), payload)
  }

  /** The promise chain after the handler: `.catch` then `.then`. A
      rejection without a status is answered 500 with its text; any other
      outcome is answered with its own status, 200 when it has none. */
  function Respond(o: Outcome): (r: Response)
    ensures o.Err? && o.error.fields.status.None? ==> r == Response(500, "text/plain", Ended(o.error.shown))
    ensures o.Err? && o.error.fields.status.Some? ==> r.status == o.error.fields.status.value
    ensures o.Ok? ==> r.status == o.value.status.GetOr(200)
    ensures r.payload.Piped? <==> Recover(o).body.Stream?
  {
    Finish(Recover(o))
  }

  /** The status codes a handler outcome can end in. */
  predicate KnownStatus(status: int) {
    status in {200, 204, 403, 404, 405, 500}
  }

  /** Where a settled handler outcome ends up: always a known status, and
      403 exactly when the target was refused for leaving the base. */
  lemma SettledResponse(out: Outcome, resolved: Result<string, Thrown>)
    requires Settled(out, resolved)
    requires resolved.Err? ==> resolved.error == Forbidden || resolved.error == UriMalformed
    ensures KnownStatus(Respond(out).status)
    ensures Respond(out).status == 403 <==> resolved == Err(Forbidden)
  {
  }

  /** A log that grew by one or two visits of a contained path keeps its
      old entries and has only contained paths after them. */
  lemma LogStaysInside(before: seq<string>, after: seq<string>, path: string, base: string)
    requires Paths.Contained(path, base)
    requires after == before + [path] || after == before + [path, path]
    ensures |before| <= |after| && after[..|before|] == before
    ensures forall i | |before| <= i < |after| :: Paths.Contained(after[i], base)
  {
  }

  /** `notAllowed` is answered 405 as plain text naming the method. */
  lemma NotAllowedResponse(methodName: string)
    ensures Respond(Ok(NotAllowed(methodName)))
            == Response(405, "text/plain", Ended("Method " + methodName + " not allowed."))
  {
  }

  /** A request whose target leaves the base directory is answered 403
      "Forbidden" as plain text. */
  lemma ForbiddenResponse()
    ensures Respond(Err(Forbidden)) == Response(403, "text/plain", Ended("Forbidden"))
  {
  }

  /** A failed file-system call is answered 500 with Node's rendering of
      the error, which names its code. */
  lemma FsFailureResponse(e: Fs.FsError)
    ensures var r := Respond(Err(FsFailure(e)));
            r.status == 500 && r.contentType == "text/plain" && r.payload.Ended?
            && Paths.IsPrefix("Error: " + Fs.CodeName(e.code) + ": ", r.payload.text)
  {
  }

  /** A target that does not percent-decode is answered 500 with the
      `URIError` text. */
  lemma MalformedResponse()
    ensures Respond(Err(UriMalformed)) == Response(500, "text/plain", Ended("URIError: URI malformed"))
  {
  }

  /** The request listener: select the handler, run it, and answer. Each
      verb answers what its handler function gives on the tree before the
      request and leaves the tree that function gives. */
  method Serve(fs: Fs.FileSystem, env: Env, req: Request) returns (resp: Response)
    requires fs.Valid()
    modifies fs
    ensures fs.Valid()
    ensures KnownStatus(resp.status)
    ensures match Select(req.methodName)
            case Refuse =>
              && resp == Response(405, "text/plain", Ended("Method " + req.methodName + " not allowed."))
              && fs.tree == old(fs.tree) && fs.touched == old(fs.touched)
            case Handle(GET) =>
              resp == Respond(GetOutcome(old(fs.tree), env, req.url)) && fs.tree == old(fs.tree)
            case Handle(PUT) =>
              var e := PutEffect(old(fs.tree), env, req.url, req.body);
              resp == Respond(e.out) && fs.tree == e.tree
            case Handle(DELETE) =>
              var e := DeleteEffect(old(fs.tree), env, req.url);
              resp == Respond(e.out) && fs.tree == e.tree
    ensures Select(req.methodName).Handle? && Paths.UrlPath(env.base, env.decode, req.url).Err? ==>
              resp == Respond(Err(Paths.UrlPath(env.base, env.decode, req.url).error))
              && fs.tree == old(fs.tree) && fs.touched == old(fs.touched)
    ensures resp.status == 403 <==>
              Select(req.methodName).Handle? && Paths.UrlPath(env.base, env.decode, req.url) == Err(Forbidden)
    ensures |old(fs.touched)| <= |fs.touched| && fs.touched[..|old(fs.touched)|] == old(fs.touched)
    ensures forall i | |old(fs.touched)| <= i < |fs.touched| :: Paths.Contained(fs.touched[i], env.base)
  {
    match Select(req.methodName)
    case Refuse =>
      resp := Respond(Ok(NotAllowed(req.methodName)));
    case Handle(verb) =>
      ghost var log := fs.touched;
      var resolved := Paths.UrlPath(env.base, env.decode, req.url);
      var out: Outcome;
      if verb == GET {
        out := Get(fs, env, req);
      } else if verb == PUT {
        out := Put(fs, env, req);
      } else {
        out := Delete(fs, env, req);
      }
      SettledResponse(out, resolved);
      if resolved.Ok? {
        LogStaysInside(log, fs.touched, resolved.value, env.base);
      }
      resp := Respond(out);
  }

  // ---------------------------------------------------------------------
  // Request sequences against the same target

  /** A PUT answered 204 stores the body: a GET of the same target on the
      tree it leaves pipes exactly those bytes back, typed by the MIME type
      of the path. */
  lemma PutThenGetRoundTrip(t: Fs.Tree, env: Env, url: string, data: seq<byte>)
    requires Fs.WellFormed(t)
    requires Respond(PutEffect(t, env, url, data).out).status == 204
    ensures Paths.UrlPath(env.base, env.decode, url).Ok?
    ensures Respond(GetOutcome(PutEffect(t, env, url, data).tree, env, url))
            == Response(200, env.mimeType(Paths.UrlPath(env.base, env.decode, url).value), Piped(data))
  {
  }

  /** A DELETE answered 204 leaves nothing behind: a GET of the same target
      on the tree it leaves is answered 404. */
  lemma DeleteThenGetMissing(t: Fs.Tree, env: Env, url: string)
    requires Fs.WellFormed(t)
    requires Respond(DeleteEffect(t, env, url).out).status == 204
    ensures Respond(GetOutcome(DeleteEffect(t, env, url).tree, env, url))
            == Response(404, "text/plain", Ended("File not found"))
  {
    Gone(t, env, url);
  }

  /** DELETE is idempotent: once a DELETE is answered 204, repeating it on
      the tree it leaves is answered 204 again and changes nothing. */
  lemma DeleteIdempotent(t: Fs.Tree, env: Env, url: string)
    requires Fs.WellFormed(t)
    requires Respond(DeleteEffect(t, env, url).out).status == 204
    ensures var once := DeleteEffect(t, env, url);
            DeleteEffect(once.tree, env, url) == Effect(Ok(NoContent), once.tree)
  {
    Gone(t, env, url);
  }

  /** After a DELETE answered 204 the resolved path is missing, with no
      file above it. */
  lemma Gone(t: Fs.Tree, env: Env, url: string)
    requires Fs.WellFormed(t)
    requires Respond(DeleteEffect(t, env, url).out).status == 204
    ensures Paths.UrlPath(env.base, env.decode, url).Ok?
    ensures Fs.Lookup(DeleteEffect(t, env, url).tree, Paths.Components(Paths.UrlPath(env.base, env.decode, url).value))
            == Err(Fs.ENOENT)
  {
    var e := DeleteEffect(t, env, url);
    var key := Paths.Components(Paths.UrlPath(env.base, env.decode, url).value);
    assert e.out == Ok(NoContent);
    if key in t {
      Fs.GoneAfterDetach(t, key);
    }
  }

  /** A PUT then a GET of the same target, through the request listener. */
  method PutThenGet(fs: Fs.FileSystem, env: Env, url: string, data: seq<byte>) returns (put: Response, get: Response)
    requires fs.Valid()
    modifies fs
    ensures fs.Valid()
    ensures put.status == 204 ==>
              && Paths.UrlPath(env.base, env.decode, url).Ok?
              && get == Response(200, env.mimeType(Paths.UrlPath(env.base, env.decode, url).value), Piped(data))
  {
    ghost var before := fs.tree;
    put := Serve(fs, env, Request("PUT", url, data));
    if put.status == 204 {
      PutThenGetRoundTrip(before, env, url, data);
    }
    get := Serve(fs, env, Request("GET", url, []));
  }

  /** A DELETE then a GET of the same target, through the request listener. */
  method DeleteThenGet(fs: Fs.FileSystem, env: Env, url: string) returns (del: Response, get: Response)
    requires fs.Valid()
    modifies fs
    ensures fs.Valid()
    ensures del.status == 204 ==> get == Response(404, "text/plain", Ended("File not found"))
  {
    ghost var before := fs.tree;
    del := Serve(fs, env, Request("DELETE", url, []));
    if del.status == 204 {
      DeleteThenGetMissing(before, env, url);
    }
    get := Serve(fs, env, Request("GET", url, []));
  }

  /** The same DELETE twice, through the request listener: once the first is
      answered 204, the second is answered the same and leaves the tree as
      the first left it. */
  method DeleteTwice(fs: Fs.FileSystem, env: Env, url: string) returns (first: Response, second: Response)
    requires fs.Valid()
    modifies fs
    ensures fs.Valid()
    ensures first.status == 204 ==>
              second == first && fs.tree == DeleteEffect(old(fs.tree), env, url).tree
  {
    ghost var before := fs.tree;
    first := Serve(fs, env, Request("DELETE", url, []));
    if first.status == 204 {
      DeleteIdempotent(before, env, url);
    }
    second := Serve(fs, env, Request("DELETE", url, []));
  }
}
