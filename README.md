# SimpleFileServer, modelled in Dafny

SimpleFileServer is a small Node.js HTTP server. It serves the directory it
was started in (`process.cwd()`, the *base directory*) and supports three
methods:

- GET returns a file's bytes typed by its MIME type, or a directory's
  listing with one name per line;
- PUT creates or truncates a file so that it holds the request body;
- DELETE removes a file or an empty directory.

Every handler first turns the request target into a file path (`urlPath`).
It takes the pathname, percent-decodes it, drops one leading character and
resolves the rest against the base directory. It refuses with 403 any
result that is neither the base directory nor starts with the base
directory followed by `/`. The listener picks the handler from a table,
falling back to a 405 handler. A rejection that carries a `status` becomes
the response as is; any other rejection becomes a 500 whose body is the
error as a string. The status defaults to 200 and the `Content-Type` to
`text/plain`.

The project has six modules:

- `Basics` (basics.dfy): `Option`, `Result`, bytes and `Array.prototype.join`.
- `Messages` (messages.dfy): the `{ status, body, type }` descriptor a
  handler resolves with, and the values it rejects with.
- `Paths` (paths.dfy): `urlPath` as pure functions. A path is split on `/`,
  walked onto a stack of components (`.` and empty pieces skipped, `..`
  popping and stopping at the root), rendered back and checked for
  containment.
- `Fs` (filesystem.dfy): the file system the handlers see. It is a map from
  component lists to `File(bytes)` or `Dir(names)`, kept well formed (a
  root directory, every entry listed once by its parent directory, every
  listed name present). The class `FileSystem` holds this map and has one
  method per file-system call, each with Node's error codes. Its ghost log
  `touched` records every path handed to a call.
- `Handlers` (handlers.dfy): the `methods` table, and GET, DELETE and PUT
  as module-level methods that take a `FileSystem`. Each method is proved
  against a function (`GetOutcome`, `DeleteEffect`, `PutEffect`) that gives
  the handler's outcome and the tree it leaves, from the tree before the
  request.
- `Server` (server.dfy): handler selection, the `.catch`/`.then` chain,
  `notAllowed` and the request listener. It also holds three request
  sequences, each run through the listener: PUT then GET, DELETE then GET,
  and DELETE twice.

`decodeURIComponent` and `mime.getType` are parameters: the `Env` datatype
carries them as functions, next to the base directory. `decodeURIComponent`
is partial (`None` for a malformed escape). `url.parse` is reduced to "the
prefix before the first `?` or `#`".

## Model

| member | source | states |
|---|---|---|
| Paths.Split | handlers.js:78 | splitting yields at least one piece and no piece holds `/` |
| Paths.JoinSplit | handlers.js:78 | joining the pieces with `/` gives back the original string |
| Paths.SplitJoin | handlers.js:78 | splitting a `/`-join of slash-free pieces gives back those pieces |
| Paths.Walk | handlers.js:78 | normalising pieces onto a stack of clean names yields only clean names (no empty, `.`, `..` or `/`) |
| Paths.WalkConcat | handlers.js:78 | normalisation is compositional: walking `xs + ys` equals walking `xs` and then `ys` |
| Paths.WalkKeepsStack | handlers.js:78 | without `..` pieces the walk never leaves the starting directory |
| Paths.Normalize | handlers.js:78 | `path.resolve` always returns an absolute path |
| Paths.NormalizeIdempotent | handlers.js:78 | normalising a normalised path changes nothing, and keeps its components |
| Paths.ComponentsRender | handlers.js:78 | rendering clean components and reading them back is the identity, and the rendered path is normalised |
| Paths.RenderInjective | handlers.js:78 | two clean component lists render to the same path exactly when they are equal |
| Paths.ResolveRelative | handlers.js:78 | resolving a relative path against a normalised base walks its pieces on top of the base's components |
| Paths.Resolve | handlers.js:78 | `path.resolve` against the base always yields an absolute path |
| Paths.Pathname | handlers.js:75 | the pathname is the longest prefix of the target free of `?` and `#` |
| Paths.DropFirst | handlers.js:78 | `.slice(1)` removes exactly the first character and keeps the empty string empty |
| Paths.Contained | handlers.js:80 | a contained path begins with the base, and when it is not the base itself the next character is `/` |
| Paths.UrlPath | handlers.js:74-85 | an accepted path equals the base or starts with base + `/`; a failure is the 403 object or the URIError, and it is the URIError exactly when decoding fails |
| Paths.ContainedIffUnder | handlers.js:80 | for a base other than `/`, the literal containment test on normalised paths holds exactly when the base's components prefix the path's components |
| Paths.SiblingRejected | handlers.js:80 | a sibling that extends the base name without a `/` (such as `/base2` for `/base`) is rejected |
| Paths.RootBaseAcceptsOnlyRoot | handlers.js:80 | with base `/` the literal test `startsWith("//")` accepts only `/` itself |
| Paths.UrlPathIffUnderBase | handlers.js:74-85 | once decoding succeeds, `urlPath` returns the resolved path exactly when it lies at or below the base and throws the 403 object otherwise |
| Paths.AcceptedIsCanonical | handlers.js:78-84 | every accepted path is already normalised |
| Paths.DescendingRequestAccepted | handlers.js:78-84 | a relative target without `..` pieces is always accepted, as the resolved path |
| Paths.EmptyPathIsBase | handlers.js:78-84 | a pathname that decodes to the empty string or to `/` names the base directory itself |
| Paths.ParentOfBaseForbidden | handlers.js:80-81 | the target `/..` is refused with 403 |
| Messages.Raised | handlers.js:20 | an Error object carries no `status` and is shown as its text |
| Basics.Join | handlers.js:26 | joining no names gives the empty string and one name gives that name; Paths.JoinSplit is its inverse over `/` |
| Fs.Describe | file_server.js:13 | `String(error)` of a file-system error begins `Error: <CODE>: ` |
| Fs.FileAbove | handlers.js:18 | the walk meets a file exactly when some proper ancestor is a file |
| Fs.Lookup | handlers.js:18 | `stat` finds an entry exactly when it is in the tree, reports ENOTDIR exactly when a file stands on the way and ENOENT otherwise |
| Fs.Without | handlers.js:50-51 | the listing loses exactly the removed name and stays free of repeats |
| Fs.Detach | handlers.js:50-51 | removal deletes exactly one key, leaves every other entry but the parent unchanged, and the parent lists every name but the removed one |
| Fs.RemoveDir | handlers.js:50 | `rmdir` succeeds exactly on an empty directory other than the root (ENOTEMPTY for a non-empty one), and then removes that entry only |
| Fs.RemoveFile | handlers.js:51 | `unlink` succeeds exactly on a file, and then removes that entry only |
| Fs.PutFile | handlers.js:58 | a write stream succeeds exactly on an existing file or a new name in an existing directory; the path then holds exactly the data, one key at most is added, and no other entry changes except the parent's listing gaining the new name |
| Fs.Report | handlers.js:18-20 | a failed call is reported with its code, system call and path; a successful one passes its value |
| Fs.AncestorsAreDirs | handlers.js:18 | in a well-formed tree every proper ancestor of an entry is a directory |
| Fs.DetachWellFormed | handlers.js:50-51 | removing a file or an empty directory keeps the tree well formed |
| Fs.TruncateWellFormed | handlers.js:58 | truncating an existing file keeps the tree well formed |
| Fs.PutFileWellFormed | handlers.js:58 | creating or truncating a file keeps the tree well formed |
| Fs.GoneAfterDetach | handlers.js:50-52 | after a removal, `stat` of the path reports ENOENT |
| Fs.FileSystem.Stat | handlers.js:18 | `stat` reports the lookup of the path, changes no entry and logs the path |
| Fs.FileSystem.ReadDir | handlers.js:26 | `readdir` returns a directory's listing, fails with ENOTDIR on a file, changes nothing and logs the path |
| Fs.FileSystem.ReadFile | handlers.js:30 | a read stream delivers a file's bytes, changes nothing and logs the path |
| Fs.FileSystem.Rmdir | handlers.js:50 | the tree becomes the `rmdir` result or stays as it was with the error; the tree stays well formed |
| Fs.FileSystem.Unlink | handlers.js:51 | the tree becomes the `unlink` result or stays as it was with the error; the tree stays well formed |
| Fs.FileSystem.WriteFile | handlers.js:58 | the tree becomes the write result or stays as it was with the error; the tree stays well formed |
| Handlers.FsFailure | handlers.js:20 | a rethrown file-system error carries no `status` |
| Handlers.Methods | handlers.js:9 | the table holds exactly `GET`, `PUT` and `DELETE`, with no inherited names |
| Handlers.GetOutcome | handlers.js:12-34 | on a refused target the refusal; on an entry, a directory's names joined by newlines or a file's bytes typed by the MIME lookup; ENOTDIR rethrown exactly when a file stands on the way; 404 "File not found" otherwise |
| Handlers.DeleteEffect | handlers.js:37-53 | the tree stays well formed; a missing path gives 204 (or the rethrown ENOTDIR) with nothing changed; a file or an empty non-root directory is removed with 204; the root gives EBUSY and a non-empty directory ENOTEMPTY, with nothing changed; any outcome but 204 leaves the tree as it was |
| Handlers.PutEffect | handlers.js:56-60 | the tree stays well formed; 204 is given exactly for an existing file or a new name in an existing directory, and then the path holds exactly the body, at most that key is added and no other entry but the parent's listing changes; otherwise nothing changes |
| Handlers.Get | handlers.js:12-34 | the outcome is GetOutcome of the tree; no entry changes; the log gains the resolved path once, or twice when it names an entry, and nothing for a refused target |
| Handlers.Delete | handlers.js:37-53 | the outcome and the new tree are those DeleteEffect gives for the old tree; the tree stays well formed; the log gains the resolved path once, or twice when it names an entry |
| Handlers.Remove | handlers.js:50-51 | a directory goes through `rmdir` and anything else through `unlink`; the tree becomes the call's result, or stays with the error tagged by that call; the path is logged once |
| Handlers.Put | handlers.js:56-60 | the outcome and the new tree are those PutEffect gives for the old tree; the tree stays well formed; the log gains the resolved path once |
| Server.Select | file_server.js:9 | the handler is the table entry for `GET`, `PUT` and `DELETE` and `notAllowed` for every other name, `toString` included |
| Server.NotAllowed | file_server.js:23-28 | `notAllowed` gives status 405 with no type and a text body that begins "Method <m> " |
| Server.NotAllowedResponse | file_server.js:23-28 | `notAllowed` ends as 405, `text/plain`, "Method <m> not allowed." |
| Server.Recover | file_server.js:11-14 | a fulfilled descriptor passes; a rejection with a `status` becomes the descriptor unchanged; any other rejection becomes 500 with its string as body, so every rejection ends with a status |
| Server.Finish | file_server.js:15-18 | status defaults to 200 and type to `text/plain`; a stream is piped byte for byte; text is written whole; no body ends the response empty |
| Server.Respond | file_server.js:11-18 | a rejection without a status is answered 500 `text/plain` with its text; a rejection with one is answered with that status; a fulfilled descriptor is answered with its status or 200; only a stream body is piped |
| Server.SettledResponse | file_server.js:11-18 | a handler outcome ends in 200, 204, 403, 404, 405 or 500, and in 403 exactly when the target left the base |
| Server.ForbiddenResponse | file_server.js:12 | the 403 thrown by the containment check reaches the client as 403 `text/plain` "Forbidden" |
| Server.FsFailureResponse | file_server.js:13 | a failed file-system call reaches the client as 500 with the error's text, which names its code |
| Server.MalformedResponse | file_server.js:13 | a target that does not decode reaches the client as 500 "URIError: URI malformed" |
| Server.Serve | file_server.js:8-19 | an unlisted method gets 405 and touches nothing; GET answers Respond of GetOutcome on the old tree and changes nothing; PUT and DELETE answer Respond of PutEffect/DeleteEffect and leave their tree; every status is known; 403 exactly for a target outside the base; every path handed to the file system lies at or below the base |
| Server.PutThenGet | handlers.js:12-60 | through the listener: after a PUT answered 204, a GET of the same target pipes back exactly the bytes put, typed by the MIME lookup, with status 200 |
| Server.DeleteThenGet | handlers.js:12-53 | through the listener: after a DELETE answered 204, a GET of the same target is answered 404 "File not found" |
| Server.DeleteTwice | handlers.js:37-53 | through the listener: after a DELETE answered 204, the same DELETE is answered the same and leaves the tree the first one left |
| Server.PutThenGetRoundTrip | handlers.js:12-60 | on any well-formed tree, a PUT answered 204 is followed by a GET answered 200 with exactly the bytes put, typed by the MIME lookup |
| Server.DeleteThenGetMissing | handlers.js:12-53 | on any well-formed tree, a DELETE answered 204 is followed by a GET answered 404 "File not found" |
| Server.DeleteIdempotent | handlers.js:37-53 | on any well-formed tree, repeating a DELETE answered 204 gives 204 again and changes nothing |
| Server.Gone | handlers.js:42-52 | after a DELETE answered 204, whether it found nothing or removed the entry, `stat` of the path reports ENOENT |

## Left out

- Sockets, `listen(8000)`, `writeHead` and `end`: the model stops at the
  `Response` value (status, one `Content-Type`, payload) the listener would write.
- Streams: `createReadStream`, `createWriteStream`, `pipeStream` and
  `body.pipe(response)` are event driven. A file body is modelled as its
  bytes, and PUT as a write that succeeds or fails as a whole. Stream errors
  after the headers are sent, partial writes and errors from the request
  stream itself are not modelled.
- Paths.Pathname: `url.parse` is reduced to the prefix before `?` or `#`. Its
  handling of absolute-form targets, auto-escaping, and a missing pathname
  (which `decodeURIComponent` turns into the string "null") are not modelled.
  Nor is its conversion of `\` before the first `?` or `#` into `/`: the
  target `/a\b` names `base/a/b` in Node but a single component `a\b` in
  the model, and `/..\..\x` is refused with 403 in Node but answered 404
  by the model.
- `decodeURIComponent` is a partial function given as a
  parameter. Its UTF-8 decoding rules are not modelled; only its failure, a
  URIError that ends as a 500, is.
- `mime.getType` is a function given as a parameter and always
  returns a string. Its table, and the `null` it returns for unknown
  extensions (which `.then` does not replace with `text/plain`), are not
  modelled.
- Concurrency: requests run one at a time. Interleavings of in-flight
  requests, and races between `stat` and `rmdir`/`unlink`, are not modelled.
- `readdir` order is modelled as a listing kept by each directory, a new file
  going last. The real order is whatever the operating system returns, so
  properties about listings are stated up to that sequence.
- File-system entries are files and directories only. Symbolic links,
  devices, permissions (EACCES, EPERM) and I/O errors are not modelled, so
  `unlink` of an existing file always succeeds.
- Fs.Lookup: every component is an ordinary name. Node rejects a path
  holding a NUL character (a target with `%00`) with ERR_INVALID_ARG_VALUE
  and a component longer than 255 bytes with ENAMETOOLONG, both ending as
  500. The model instead answers GET 404, DELETE 204, and PUT 204 with the
  file created.
- A thrown `null` or `undefined`, which would make `.catch` itself throw, is
  not modelled: no handler throws one.
