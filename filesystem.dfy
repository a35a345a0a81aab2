/** The file system the handlers act on, reduced to what handlers.js asks
    of it: `stat`, `readdir`, reading a file, `rmdir`, `unlink` and creating
    or truncating a file. A tree maps each entry's component list (the path
    walk the operating system performs) to a file's bytes or a directory's
    listing. */
module Fs {
  import opened Basics
  import Paths

  /** A file with its contents, or a directory with the names `readdir`
      lists, in the order it lists them. */
  datatype Node = File(data: seq<byte>) | Dir(names: seq<string>)

  type Key = seq<string>
  type Tree = map<Key, Node>

  /** The error codes this model produces. */
  datatype Errno = ENOENT | ENOTDIR | EISDIR | ENOTEMPTY | EBUSY

  /** A rejected file-system call: code, system call and the path passed. */
  datatype FsError = FsError(code: Errno, syscall: string, path: string)

  function CodeName(c: Errno): string {
    match c
    case ENOENT => "ENOENT"
    case ENOTDIR => "ENOTDIR"
    case EISDIR => "EISDIR"
    case ENOTEMPTY => "ENOTEMPTY"
    case EBUSY => "EBUSY"
  }

  function Message(c: Errno): string {
    match c
    case ENOENT => "no such file or directory"
    case ENOTDIR => "not a directory"
    case EISDIR => "illegal operation on a directory"
    case ENOTEMPTY => "directory not empty"
    case EBUSY => "resource busy or locked"
  }

  /** `String(error)` of a Node.js file-system error. */
  function Describe(e: FsError): (text: string)
    ensures Paths.IsPrefix("Error: " + CodeName(e.code) + ": ", text)
  {
    var head := "Error: " + CodeName(e.code) + ": ";
    var text := head + Message(e.code) + ", " + e.syscall + " '" + e.path + "'";
    assert text[..|head|] == head;
    text
  }

  function Parent(k: Key): Key
    requires k != []
  {
    k[..|k| - 1]
  }

  function Last(k: Key): string
    requires k != []
  {
    k[|k| - 1]
  }

  predicate Distinct(names: seq<string>) {
    forall i, j | 0 <= i < j < |names| :: names[i] != names[j]
  }

  /** `k` names a directory entry and its parent directory lists it. */
  ghost predicate Listed(t: Tree, k: Key) {
    k != [] && Parent(k) in t && t[Parent(k)].Dir? && Last(k) in t[Parent(k)].names
  }

  /** What a tree promises about the entry at `k`: clean component names, a
      listing by its parent unless it is the root, and, for a directory, a
      listing without repeats whose every name is present. */
  ghost predicate Entry(t: Tree, k: Key) {
    k in t ==>
      && Paths.AllNames(k)
      && (k != [] ==> Listed(t, k))
      && (t[k].Dir? ==> Distinct(t[k].names) && forall n | n in t[k].names :: k + [n] in t)
  }

  /** A tree a real file system could be in: a root directory and every
      entry as `Entry` describes. The per-entry predicate keeps the solver
      from walking from an entry to its parent and on upwards unasked. */
  ghost predicate WellFormed(t: Tree) {
    [] in t && t[[]].Dir? && forall k :: Entry(t, k)
  }

  /** Some proper ancestor of `k` is a file. */
  function FileAbove(t: Tree, k: Key): (b: bool)
    ensures b <==> exists i | 0 <= i < |k| :: k[..i] in t && t[k[..i]].File?
    decreases |k|
  {
    if k == [] then false
    else
      var p := Parent(k);
      assert forall i | 0 <= i < |p| :: p[..i] == k[..i];
      (p in t && t[p].File?) || FileAbove(t, p)
  }

  /** `stat`: the entry, ENOTDIR when a file stands on the way, ENOENT otherwise. */
  function Lookup(t: Tree, k: Key): (r: Result<Node, Errno>)
    ensures r.Ok? <==> k in t
    ensures r.Ok? ==> r.value == t[k]
    ensures r == Err(ENOTDIR) <==> k !in t && FileAbove(t, k)
    ensures r == Err(ENOENT) <==> k !in t && !FileAbove(t, k)
  {
    if k in t then Ok(t[k])
    else if FileAbove(t, k) then Err(ENOTDIR)
    else Err(ENOENT)
  }

  /** `names` without `n`. */
  function Without(names: seq<string>, n: string): (r: seq<string>)
    ensures forall m :: m in r <==> m in names && m != n
    ensures Distinct(names) ==> Distinct(r)
  {
    if names == [] then []
    else if names[0] == n then Without(names[1..], n)
    else
      var rest := Without(names[1..], n);
      assert Distinct(names) ==> Distinct(names[1..]) && names[0] !in names[1..];
      [names[0]] + rest
  }

  /** The tree without the entry `k`, which its parent no longer lists. */
  function Detach(t: Tree, k: Key): (t': Tree)
    requires WellFormed(t) && k in t && k != []
    ensures t'.Keys == t.Keys - {k}
    ensures forall q | q in t' && q != Parent(k) :: t'[q] == t[q]
    ensures t'[Parent(k)].Dir?
    ensures forall n :: n in t'[Parent(k)].names <==> n in t[Parent(k)].names && n != Last(k)
    ensures Distinct(t'[Parent(k)].names)
  {
    var p := Parent(k);
    assert Entry(t, k) && Entry(t, p);
    assert p in t && t[p].Dir?;
    var t' := (t - {k})[p := Dir(Without(t[p].names, Last(k)))];
    assert p in t' && t'[p] == Dir(Without(t[p].names, Last(k)));
    t'
  }

  /** `rmdir`: only an empty directory other than the root is removed. */
  function RemoveDir(t: Tree, k: Key): (r: Result<Tree, Errno>)
    requires WellFormed(t)
    ensures r.Ok? <==> k in t && t[k] == Dir([]) && k != []
    ensures r.Err? && k in t && t[k].Dir? && k != [] ==> r.error == ENOTEMPTY
    ensures r.Ok? ==> r.value == Detach(t, k)
  {
    match Lookup(t, k)
    case Err(c) => Err(c)
    case Ok(File(_)) => Err(ENOTDIR)
    case Ok(Dir(names)) =>
      if k == [] then Err(EBUSY)
      else if names != [] then Err(ENOTEMPTY)
      else Ok(Detach(t, k))
  }

  /** `unlink`: a file is removed; a directory is refused. */
  function RemoveFile(t: Tree, k: Key): (r: Result<Tree, Errno>)
    requires WellFormed(t)
    ensures r.Ok? <==> k in t && t[k].File?
    ensures r.Ok? ==> r.value == Detach(t, k)
  {
    match Lookup(t, k)
    case Err(c) => Err(c)
    case Ok(Dir(_)) => Err(EISDIR)
    case Ok(File(_)) => Ok(Detach(t, k))
  }

  /** Opening `k` for writing with creation and truncation, then writing
      `data`: succeeds on an existing file or a new name in an existing
      directory, which then lists it last. */
  function PutFile(t: Tree, k: Key, data: seq<byte>): (r: Result<Tree, Errno>)
    requires WellFormed(t)
    ensures k !in t ==> k != []
    ensures r.Ok? <==> (k in t && t[k].File?) || (k !in t && Parent(k) in t && t[Parent(k)].Dir?)
    ensures r.Ok? ==> r.value.Keys == t.Keys + {k} && r.value[k] == File(data)
    ensures r.Ok? ==> forall q | q in t && q != k && (k in t || q != Parent(k)) :: r.value[q] == t[q]
    ensures r.Ok? && k !in t ==> r.value[Parent(k)] == Dir(t[Parent(k)].names + [Last(k)])
  {
    if k in t then
      if t[k].Dir? then Err(EISDIR) else Ok(t[k := File(data)])
    else
      var p := Parent(k);
      match Lookup(t, p)
      case Err(c) => Err(c)
      case Ok(File(_)) => Err(ENOTDIR)
      case Ok(Dir(names)) => Ok(t[k := File(data)][p := Dir(names + [Last(k)])])
  }

  /** The result of a call whose error is reported with `syscall` and `path`. */
  function Report<T>(r: Result<T, Errno>, syscall: string, path: string): (out: Result<T, FsError>)
    ensures out.Ok? <==> r.Ok?
    ensures out.Ok? ==> out.value == r.value
    ensures out.Err? ==> out.error == FsError(r.error, syscall, path)
  {
    match r
    case Ok(v) => Ok(v)
    case Err(c) => Err(FsError(c, syscall, path))
  }

  // ---------------------------------------------------------------------
  // Lemmas

  /** Every proper ancestor of an entry is a directory. */
  lemma {:induction false} AncestorsAreDirs(t: Tree, k: Key, i: nat)
    requires WellFormed(t) && k in t && i < |k|
    ensures k[..i] in t && t[k[..i]].Dir?
    decreases |k|
  {
    assert Entry(t, k);
    var p := Parent(k);
    if i < |p| {
      AncestorsAreDirs(t, p, i);
      assert p[..i] == k[..i];
    } else {
      assert k[..i] == p;
    }
  }

  /** A key one name longer than `p` has `p` as its parent. */
  lemma ParentOfChild(p: Key, n: string)
    ensures Parent(p + [n]) == p && Last(p + [n]) == n
  {
  }

  /** After removing a leaf, a remaining entry is still listed by its parent. */
  lemma DetachKeepsListed(t: Tree, k: Key, q: Key)
    requires WellFormed(t) && k in t && k != []
    requires t[k].File? || t[k] == Dir([])
    requires q in t && q != k && q != []
    ensures Listed(Detach(t, k), q)
  {
    assert Entry(t, q) && Entry(t, k);
    var p := Parent(q);
    assert p != k;
    if p == Parent(k) {
      assert q == p + [Last(q)];
      assert k == Parent(k) + [Last(k)];
    }
  }

  /** After removing a leaf, a remaining directory's listing is still free of
      repeats and names only present entries. */
  lemma DetachKeepsChildren(t: Tree, k: Key, q: Key)
    requires WellFormed(t) && k in t && k != []
    requires t[k].File? || t[k] == Dir([])
    requires q in t && q != k
    ensures var t' := Detach(t, k);
            t'[q].Dir? ==> Distinct(t'[q].names) && forall n | n in t'[q].names :: q + [n] in t'
  {
    assert Entry(t, q);
    var t' := Detach(t, k);
    if t'[q].Dir? {
      forall n | n in t'[q].names
        ensures q + [n] in t'
      {
        DetachKeepsChild(t, k, q, n);
      }
    }
  }

  /** One name a remaining directory lists still names a present entry. */
  lemma DetachKeepsChild(t: Tree, k: Key, q: Key, n: string)
    requires WellFormed(t) && k in t && k != []
    requires t[k].File? || t[k] == Dir([])
    requires q in t && q != k
    requires Detach(t, k)[q].Dir? && n in Detach(t, k)[q].names
    ensures q + [n] in Detach(t, k)
  {
    assert Entry(t, q) && Entry(t, k);
    ParentOfChild(q, n);
    if q == Parent(k) {
      assert n in t[q].names && n != Last(k);
      assert k == Parent(k) + [Last(k)];
    } else {
      assert Detach(t, k)[q] == t[q];
    }
  }

  /** Removing a file or an empty directory keeps the tree well formed. */
  lemma DetachWellFormed(t: Tree, k: Key)
    requires WellFormed(t) && k in t && k != []
    requires t[k].File? || t[k] == Dir([])
    ensures WellFormed(Detach(t, k))
  {
    var t' := Detach(t, k);
    forall q
      ensures Entry(t', q)
    {
      if q in t' {
        assert Entry(t, q);
        if q != [] {
          DetachKeepsListed(t, k, q);
        }
        DetachKeepsChildren(t, k, q);
      }
    }
  }

  /** Truncating an existing file keeps the tree well formed. */
  lemma TruncateWellFormed(t: Tree, k: Key, data: seq<byte>)
    requires WellFormed(t) && k in t && t[k].File?
    ensures WellFormed(t[k := File(data)])
  {
    var t' := t[k := File(data)];
    forall q
      ensures Entry(t', q)
    {
      if q in t' {
        assert Entry(t, q);
        if q != [] {
          assert Parent(q) != k;
        }
      }
    }
  }

  /** Adding a file under a directory that does not list it yet, and listing
      it there, keeps the entry `q` as `Entry` describes. */
  lemma AttachKeepsEntry(t: Tree, k: Key, data: seq<byte>, q: Key)
    requires WellFormed(t) && k !in t && k != [] && Paths.AllNames(k)
    requires Parent(k) in t && t[Parent(k)].Dir?
    ensures Entry(t[k := File(data)][Parent(k) := Dir(t[Parent(k)].names + [Last(k)])], q)
  {
    var p := Parent(k);
    var t' := t[k := File(data)][p := Dir(t[p].names + [Last(k)])];
    assert k == p + [Last(k)];
    if q in t' && q != k {
      assert Entry(t, q);
      if q != [] {
        assert Parent(q) != k;
      }
      if q == p {
        assert Entry(t, p);
        assert Last(k) !in t[p].names;
        assert Distinct(t[p].names + [Last(k)]);
        forall n | n in t'[q].names
          ensures q + [n] in t'
        {
        }
      }
    }
  }

  /** Creating or truncating a file keeps the tree well formed. */
  lemma PutFileWellFormed(t: Tree, k: Key, data: seq<byte>)
    requires WellFormed(t) && PutFile(t, k, data).Ok?
    requires Paths.AllNames(k)
    ensures WellFormed(PutFile(t, k, data).value)
  {
    if k in t {
      TruncateWellFormed(t, k, data);
    } else {
      forall q
        ensures Entry(PutFile(t, k, data).value, q)
      {
        AttachKeepsEntry(t, k, data, q);
      }
    }
  }

  /** After a successful removal the path is reported missing, so a second
      removal finds nothing. */
  lemma GoneAfterDetach(t: Tree, k: Key)
    requires WellFormed(t) && k in t && k != []
    ensures Lookup(Detach(t, k), k) == Err(ENOENT)
  {
    var t' := Detach(t, k);
    forall i | 0 <= i < |k|
      ensures !(k[..i] in t' && t'[k[..i]].File?)
    {
      AncestorsAreDirs(t, k, i);
      if k[..i] == Parent(k) {
      } else {
        assert k[..i] != k;
      }
    }
  }

  // ---------------------------------------------------------------------
  // The file system as mutable state

  /** The process's view of the file system. `touched` records, in order,
      every path handed to a file-system call. */
  class FileSystem {
    var tree: Tree
    ghost var touched: seq<string>

    ghost predicate Valid()
      reads this`tree
    {
      WellFormed(tree)
    }

    constructor (t: Tree)
      requires WellFormed(t)
      ensures Valid() && tree == t && touched == []
    {
      tree := t;
      touched := [];
    }

    /** `stat(path)`. */
    method Stat(path: string) returns (r: Result<Node, FsError>)
      modifies this`touched
      ensures tree == old(tree) && touched == old(touched) + [path]
      ensures r == Report(Lookup(tree, Paths.Components(path)), "stat", path)
    {
      touched := touched + [path];
      r := Report(Lookup(tree, Paths.Components(path)), "stat", path);
    }

    /** `readdir(path)`: the names a directory lists. */
    method ReadDir(path: string) returns (r: Result<seq<string>, FsError>)
      modifies this`touched
      ensures tree == old(tree) && touched == old(touched) + [path]
      ensures var key := Paths.Components(path);
              r == if key in tree && tree[key].Dir? then Ok(tree[key].names)
                   else if key in tree then Err(FsError(ENOTDIR, "scandir", path))
                   else Err(FsError(Lookup(tree, key).error, "scandir", path))
    {
      touched := touched + [path];
      var key := Paths.Components(path);
      match Lookup(tree, key)
      case Ok(Dir(names)) => r := Ok(names);
      case Ok(File(_)) => r := Err(FsError(ENOTDIR, "scandir", path));
      case Err(c) => r := Err(FsError(c, "scandir", path));
    }

    /** The bytes a read stream over `path` delivers. */
    method ReadFile(path: string) returns (r: Result<seq<byte>, FsError>)
      modifies this`touched
      ensures tree == old(tree) && touched == old(touched) + [path]
      ensures var key := Paths.Components(path);
              r == if key in tree && tree[key].File? then Ok(tree[key].data)
                   else if key in tree then Err(FsError(EISDIR, "read", path))
                   else Err(FsError(Lookup(tree, key).error, "open", path))
    {
      touched := touched + [path];
      var key := Paths.Components(path);
      match Lookup(tree, key)
      case Ok(File(data)) => r := Ok(data);
      case Ok(Dir(_)) => r := Err(FsError(EISDIR, "read", path));
      case Err(c) => r := Err(FsError(c, "open", path));
    }

    /** `rmdir(path)`. */
    method Rmdir(path: string) returns (err: Option<FsError>)
      requires Valid()
      modifies this
      ensures Valid() && touched == old(touched) + [path]
      ensures match RemoveDir(old(tree), Paths.Components(path))
              case Ok(t') => tree == t' && err.None?
              case Err(c) => tree == old(tree) && err == Some(FsError(c, "rmdir", path))
    {
      touched := touched + [path];
      var key := Paths.Components(path);
      match RemoveDir(tree, key)
      case Ok(t') =>
        DetachWellFormed(tree, key);
        tree, err := t', None;
      case Err(c) =>
        err := Some(FsError(c, "rmdir", path));
    }

    /** `unlink(path)`. */
    method Unlink(path: string) returns (err: Option<FsError>)
      requires Valid()
      modifies this
      ensures Valid() && touched == old(touched) + [path]
      ensures match RemoveFile(old(tree), Paths.Components(path))
              case Ok(t') => tree == t' && err.None?
              case Err(c) => tree == old(tree) && err == Some(FsError(c, "unlink", path))
    {
      touched := touched + [path];
      var key := Paths.Components(path);
      match RemoveFile(tree, key)
      case Ok(t') =>
        DetachWellFormed(tree, key);
        tree, err := t', None;
      case Err(c) =>
        err := Some(FsError(c, "unlink", path));
    }

    /** A write stream on `path` fed `data` to the end: the file is created
      or truncated and then holds exactly `data`. */
    method WriteFile(path: string, data: seq<byte>) returns (err: Option<FsError>)
      requires Valid()
      modifies this
      ensures Valid() && touched == old(touched) + [path]
      ensures match PutFile(old(tree), Paths.Components(path), data)
              case Ok(t') => tree == t' && err.None?
              case Err(c) => tree == old(tree) && err == Some(FsError(c, "open", path))
    {
      touched := touched + [path];
      var key := Paths.Components(path);
      match PutFile(tree, key, data)
      case Ok(t') =>
        PutFileWellFormed(tree, key, data);
        tree, err := t', None;
      case Err(c) =>
        err := Some(FsError(c, "open", path));
    }
  }
}
