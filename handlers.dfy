/** The request handlers of handlers.js: GET, DELETE and PUT, each of which
    resolves the request target with `urlPath` before it calls the file
    system, and the `methods` table that holds them. Each handler is a
    method on the file system, proved against a function that gives its
    outcome and the tree it leaves behind. */
module Handlers {
  import opened Basics
  import opened Messages
  import Paths
  import opened Fs

  /** What the handlers depend on besides the request: the base directory
      (`process.cwd()`), `decodeURIComponent`, which may fail, and
      `mime.getType`. */
  datatype Env = Env(base: string, decode: string -> Option<string>, mimeType: string -> string)

  /** A request: its method name, its target and the bytes its body carries. */
  datatype Request = Request(methodName: string, url: string, body: seq<byte>)

  /** The handlers the `methods` table holds. */
  datatype Verb = GET | PUT | DELETE

  /** The `methods` table: an object without a prototype, so only these
      three names are present in it. */
  const Methods: map<string, Verb> := map["GET" := GET, "PUT" := PUT, "DELETE" := DELETE]

  /** The separator of a directory listing. */
  const Newline: char := '\n'

  const NotFound: Descriptor := Descriptor(Some(404), Text("File not found"), None)
  const NoContent: Descriptor := Descriptor(Some(204), NoBody, None)

  /** The value a failed file-system call rejects with. */
  function FsFailure(e: Fs.FsError): (t: Thrown)
    ensures t.fields.status.None?
  {
    Raised(Fs.Describe(e))
  }

  /** The shape every handler outcome has: a failed resolution is rethrown
      as is; otherwise the handler either fulfils with no status, 204 or
      404, or rejects with a value that has no `status`. */
  predicate Settled(out: Outcome, resolved: Result<string, Thrown>) {
    match resolved
    case Err(thrown) => out == Err(thrown)
    case Ok(_) =>
      match out
      case Ok(d) => d.status in {None, Some(204), Some(404)}
      case Err(t) => t.fields.status.None?
  }

  /** A handler's outcome together with the tree it leaves behind. */
  datatype Effect = Effect(out: Outcome, tree: Fs.Tree)

  /** What `methods.GET` settles to on tree `t`: 404 for a missing path, the
      listing of a directory joined by newlines, the bytes of a file typed
      by its MIME type; any other `stat` failure is rethrown. */
  function GetOutcome(t: Fs.Tree, env: Env, url: string): (r: Outcome)
    ensures Settled(r, Paths.UrlPath(env.base, env.decode, url))
    ensures (match Paths.UrlPath(env.base, env.decode, url)
             case Err(thrown) => r == Err(thrown)
             case Ok(path) =>
               var key := Paths.Components(path);
               if key in t then
                 r == Ok(match t[key]
                         case Dir(names) => Descriptor(None, Text(Join(names, Newline)), None)
                         case File(data) => Descriptor(None, Stream(data), Some(env.mimeType(path))))
               else if Fs.Lookup(t, key) == Err(ENOTDIR) then r == Err(FsFailure(Fs.FsError(ENOTDIR, "stat", path)))
               else r == Ok(NotFound))
  {
    match Paths.UrlPath(env.base, env.decode, url)
    case Err(thrown) => Err(thrown)
    case Ok(path) =>
      var stats: Result<Node, Fs.FsError> := Fs.Report(Fs.Lookup(t, Paths.Components(path)), "stat", path);
      match stats
      case Err(e) => if e.code != ENOENT then Err(FsFailure(e)) else Ok(NotFound)
      case Ok(Dir(names)) => Ok(Descriptor(None, Text(Join(names, Newline)), None))
      case Ok(File(data)) => Ok(Descriptor(None, Stream(data), Some(env.mimeType(path))))
  }

  /** What `methods.DELETE` does to tree `t`: a missing path is answered 204
      and nothing changes; a file or an empty directory other than the root
      is removed and 204 answered; any other failure is rethrown and nothing
      changes. */
  function DeleteEffect(t: Fs.Tree, env: Env, url: string): (r: Effect)
    requires Fs.WellFormed(t)
    ensures Fs.WellFormed(r.tree)
    ensures Settled(r.out, Paths.UrlPath(env.base, env.decode, url))
    ensures r.out != Ok(NoContent) ==> r.tree == t
    ensures (match Paths.UrlPath(env.base, env.decode, url)
             case Err(thrown) => r.out == Err(thrown)
             case Ok(path) =>
               var key := Paths.Components(path);
               if key !in t then
                 r.tree == t
                 && r.out == (if Fs.Lookup(t, key) == Err(ENOTDIR) then Err(FsFailure(Fs.FsError(ENOTDIR, "stat", path))) else Ok(NoContent))
               else if t[key].File? || (t[key] == Dir([]) && key != []) then
                 r == Effect(Ok(NoContent), Fs.Detach(t, key))
               else
                 r.out == Err(FsFailure(Fs.FsError(if key == [] then EBUSY else ENOTEMPTY, "rmdir", path))))
  {
    match Paths.UrlPath(env.base, env.decode, url)
    case Err(thrown) => Effect(Err(thrown), t)
    case Ok(path) =>
      var key := Paths.Components(path);
      match Fs.Report(Fs.Lookup(t, key), "stat", path)
      case Err(e) => if e.code != ENOENT then Effect(Err(FsFailure(e)), t) else Effect(Ok(NoContent), t)
      case Ok(node) =>
        var syscall := if node.Dir? then "rmdir" else "unlink";
        var removed := if node.Dir? then Fs.RemoveDir(t, key) else Fs.RemoveFile(t, key);
        match Fs.Report(removed, syscall, path)
        case Err(e) => Effect(Err(FsFailure(e)), t)
        case Ok(t') =>
          Fs.DetachWellFormed(t, key);
          Effect(Ok(NoContent), t')
  }

  /** What `methods.PUT` does to tree `t`: the file at the path is created
      or truncated to hold exactly `body` and 204 is answered, or the open
      error is rethrown and nothing changes. */
  function PutEffect(t: Fs.Tree, env: Env, url: string, body: seq<byte>): (r: Effect)
    requires Fs.WellFormed(t)
    ensures Fs.WellFormed(r.tree)
    ensures Settled(r.out, Paths.UrlPath(env.base, env.decode, url))
    ensures r.out != Ok(NoContent) ==> r.tree == t
    ensures (match Paths.UrlPath(env.base, env.decode, url)
             case Err(thrown) => r.out == Err(thrown)
             case Ok(path) =>
               var key := Paths.Components(path);
               && (r.out == Ok(NoContent) <==>
                     (key in t && t[key].File?) || (key !in t && key != [] && Parent(key) in t && t[Parent(key)].Dir?))
               && (r.out == Ok(NoContent) ==>
                     && Fs.Lookup(r.tree, key) == Ok(File(body))
                     && r.tree.Keys == t.Keys + {key}
                     && (forall q | q in t && q != key && (key in t || q != Parent(key)) :: r.tree[q] == t[q])))
  {
    match Paths.UrlPath(env.base, env.decode, url)
    case Err(thrown) => Effect(Err(thrown), t)
    case Ok(path) =>
      var key := Paths.Components(path);
      match Fs.Report(Fs.PutFile(t, key, body), "open", path)
      case Err(e) => Effect(Err(FsFailure(e)), t)
      case Ok(t') =>
        Fs.PutFileWellFormed(t, key, body);
        Effect(Ok(NoContent), t')
  }

  /** `methods.GET`: `stat`, then `readdir` for a directory or a read
      stream for anything else; the file system is left as it was and only
      the resolved path is visited. */
  method Get(fs: Fs.FileSystem, env: Env, req: Request) returns (out: Outcome)
    modifies fs`touched
    ensures out == GetOutcome(fs.tree, env, req.url)
    ensures fs.tree == old(fs.tree)
    ensures fs.touched == old(fs.touched) + match Paths.UrlPath(env.base, env.decode, req.url)
            case Err(_) => []
            case Ok(path) => if Paths.Components(path) in fs.tree then [path, path] else [path]
  {
    var resolved := Paths.UrlPath(env.base, env.decode, req.url);
    if resolved.Err? {
      return Err(resolved.error);
    }
    var path := resolved.value;
    var stats := fs.Stat(path);
    if stats.Err? {
      if stats.error.code != ENOENT {
        return Err(FsFailure(stats.error));
      }
      return Ok(NotFound);
    }
    if stats.value.Dir? {
      var listing := fs.ReadDir(path);
      out := Ok(Descriptor(None, Text(Join(listing.value, Newline)), None));
    } else {
      var contents := fs.ReadFile(path);
      out := Ok(Descriptor(None, Stream(contents.value), Some(env.mimeType(path))));
    }
  }

  /** `methods.DELETE`: `stat`, then `rmdir` for a directory and `unlink`
      for anything else, whose failure is rethrown. */
  method Delete(fs: Fs.FileSystem, env: Env, req: Request) returns (out: Outcome)
    requires fs.Valid()
    modifies fs
    ensures fs.Valid()
    ensures out == DeleteEffect(old(fs.tree), env, req.url).out
    ensures fs.tree == DeleteEffect(old(fs.tree), env, req.url).tree
    ensures fs.touched == old(fs.touched) + match Paths.UrlPath(env.base, env.decode, req.url)
            case Err(_) => []
            case Ok(path) => if Paths.Components(path) in old(fs.tree) then [path, path] else [path]
  {
    var resolved := Paths.UrlPath(env.base, env.decode, req.url);
    if resolved.Err? {
      return Err(resolved.error);
    }
    var path := resolved.value;
    var stats := fs.Stat(path);
    if stats.Err? {
      if stats.error.code != ENOENT {
        return Err(FsFailure(stats.error));
      }
      return Ok(NoContent);
    }
    var err := Remove(fs, path, stats.value);
    if err.Some? {
      return Err(FsFailure(err.value));
    }
    out := Ok(NoContent);
  }

  /** The second step of `methods.DELETE`: `rmdir` when `stat` saw a
      directory, `unlink` otherwise. */
  method Remove(fs: Fs.FileSystem, path: string, node: Node) returns (err: Option<Fs.FsError>)
    requires fs.Valid() && Fs.Lookup(fs.tree, Paths.Components(path)) == Ok(node)
    modifies fs
    ensures fs.Valid() && fs.touched == old(fs.touched) + [path]
    ensures var removed := if node.Dir? then Fs.RemoveDir(old(fs.tree), Paths.Components(path))
                           else Fs.RemoveFile(old(fs.tree), Paths.Components(path));
            match removed
            case Ok(t') => err.None? && fs.tree == t'
            case Err(code) =>
              err == Some(Fs.FsError(code, if node.Dir? then "rmdir" else "unlink", path)) && fs.tree == old(fs.tree)
  {
    if node.Dir? {
      err := fs.Rmdir(path);
    } else {
      err := fs.Unlink(path);
    }
  }

  /** `methods.PUT`: a write stream on the path fed the request body. */
  method Put(fs: Fs.FileSystem, env: Env, req: Request) returns (out: Outcome)
    requires fs.Valid()
    modifies fs
    ensures fs.Valid()
    ensures out == PutEffect(old(fs.tree), env, req.url, req.body).out
    ensures fs.tree == PutEffect(old(fs.tree), env, req.url, req.body).tree
    ensures fs.touched == old(fs.touched) + match Paths.UrlPath(env.base, env.decode, req.url)
            case Err(_) => []
            case Ok(path) => [path]
  {
    var resolved := Paths.UrlPath(env.base, env.decode, req.url);
    if resolved.Err? {
      return Err(resolved.error);
    }
    var path := resolved.value;
    var err := fs.WriteFile(path, req.body);
    if err.Some? {
      return Err(FsFailure(err.value));
    }
    out := Ok(NoContent);
  }
}
