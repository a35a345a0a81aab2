/** Resolution of a request target to a file path inside the base directory
    (`urlPath` in handlers.js): take the pathname, percent-decode it, drop one
    leading character, resolve the rest against the base directory the way
    POSIX `path.resolve` does, and accept the result only if it is the base
    directory or starts with the base directory followed by '/'. */
module Paths {
  import opened Basics
  import opened Messages

  /** A component that survives normalisation: not empty, not "." or "..", no '/'. */
  predicate IsName(s: string) {
    s != "" && s != "." && s != ".." && '/' !in s
  }

  predicate AllNames(segs: seq<string>) {
    forall i | 0 <= i < |segs| :: IsName(segs[i])
  }

  predicate NoSlash(parts: seq<string>) {
    forall i | 0 <= i < |parts| :: '/' !in parts[i]
  }

  predicate IsPrefix<T(==)>(pre: seq<T>, s: seq<T>) {
    |pre| <= |s| && s[..|pre|] == pre
  }

  /** The pieces of `s` between slashes, empty pieces included. */
  function Split(s: string): (parts: seq<string>)
    ensures |parts| >= 1 && NoSlash(parts)
    decreases |s|
  {
    if s == [] then [""]
    else if s[0] == '/' then [""] + Split(s[1..])
    else
      var rest := Split(s[1..]);
      [[s[0]] + rest[0]] + rest[1..]
  }

  /** Normalisation of the pieces onto a stack of components: empty pieces
      and "." are skipped, ".." pops one component and is dropped at the root. */
  function Walk(stack: seq<string>, parts: seq<string>): (r: seq<string>)
    requires AllNames(stack) && NoSlash(parts)
    ensures AllNames(r)
    decreases |parts|
  {
    if parts == [] then stack
    else
      var p := parts[0];
      if p == "" || p == "." then Walk(stack, parts[1..])
      else if p == ".." then Walk(if stack == [] then [] else stack[..|stack| - 1], parts[1..])
      else Walk(stack + [p], parts[1..])
  }

  /** The absolute path whose components are `segs`. */
  function Render(segs: seq<string>): string {
    "/" + Join(segs, '/')
  }

  /** The components of `p` after normalisation. */
  function Components(p: string): (segs: seq<string>)
    ensures AllNames(segs)
  {
    Walk([], Split(p))
  }

  /** The absolute, normalised form of `p`. */
  function Normalize(p: string): (r: string)
    ensures |r| > 0 && r[0] == '/'
  {
    Render(Components(p))
  }

  /** A path that normalisation leaves alone, as `process.cwd()` returns. */
  predicate Canonical(p: string) {
    Normalize(p) == p
  }

  /** POSIX `path.resolve(rel)` with working directory `base`: an absolute
      `rel` stands alone, a relative one is appended to `base`. */
  function Resolve(base: string, rel: string): (r: string)
    ensures |r| > 0 && r[0] == '/'
  {
    Normalize(if |rel| > 0 && rel[0] == '/' then rel else base + "/" + rel)
  }

  /** The containment test: equal to the base, or the base followed by '/'. */
  function Contained(path: string, base: string): (b: bool)
    ensures b ==> IsPrefix(base, path)
    ensures b && path != base ==> |path| > |base| && path[|base|] == '/'
  {
    path == base || IsPrefix(base + "/", path)
  }

  /** The pathname of a request target: everything before the first '?' or '#'. */
  function Pathname(url: string): (r: string)
    ensures IsPrefix(r, url)
    ensures '?' !in r && '#' !in r
    ensures |r| < |url| ==> url[|r|] == '?' || url[|r|] == '#'
  {
    if url == [] || url[0] == '?' || url[0] == '#' then ""
    else [url[0]] + Pathname(url[1..])
  }

  /** `s.slice(1)`: every character but the first. */
  function DropFirst(s: string): (r: string)
    ensures s != [] ==> [s[0]] + r == s
    ensures s == [] ==> r == []
  {
    if s == [] then [] else s[1..]
  }

  /** The path a request target names, or the value `urlPath` throws:
      UriMalformed when decoding fails, Forbidden when the resolved path
      escapes `base`. */
  function UrlPath(base: string, decode: string -> Option<string>, url: string): (r: Result<string, Thrown>)
    ensures r.Ok? ==> r.value == base || IsPrefix(base + "/", r.value)
    ensures r.Err? ==> r.error == Forbidden || r.error == UriMalformed
    ensures r == Err(UriMalformed) <==> decode(Pathname(url)).None?
  {
    match decode(Pathname(url))
    case None => Err(UriMalformed)
    case Some(decoded) =>
      var path := Resolve(base, DropFirst(decoded));
      if path != base && !IsPrefix(base + "/", path) then Err(Forbidden)
      else Ok(path)
  }

  // ---------------------------------------------------------------------
  // Splitting and joining

  /** Joining the pieces with '/' gives back the string. */
  lemma {:induction false} JoinSplit(s: string)
    ensures Join(Split(s), '/') == s
    decreases |s|
  {
    if s != [] {
      JoinSplit(s[1..]);
      var rest := Split(s[1..]);
      if s[0] == '/' {
        assert Split(s) == [""] + rest;
        assert ([""] + rest)[1..] == rest;
      } else {
        var parts := Split(s);
        assert parts == [[s[0]] + rest[0]] + rest[1..];
        if |rest| == 1 {
          assert parts == [[s[0]] + rest[0]];
        } else {
          assert parts[1..] == rest[1..];
          assert Join(rest, '/') == rest[0] + "/" + Join(rest[1..], '/');
        }
        assert [s[0]] + s[1..] == s;
      }
    }
  }

  lemma {:induction false} SplitName(a: string)
    requires '/' !in a
    ensures Split(a) == [a]
    decreases |a|
  {
    if a != [] {
      SplitName(a[1..]);
      assert [a[0]] + a[1..] == a;
    }
  }

  lemma {:induction false} SplitAfterName(a: string, t: string)
    requires '/' !in a
    ensures Split(a + "/" + t) == [a] + Split(t)
    decreases |a|
  {
    var s := a + "/" + t;
    if a == [] {
      assert s[1..] == t;
    } else {
      assert s[0] == a[0];
      assert s[1..] == a[1..] + "/" + t;
      SplitAfterName(a[1..], t);
      assert [a[0]] + a[1..] == a;
    }
  }

  /** One step of a join: the first piece, a separator, the join of the rest. */
  lemma JoinStep(segs: seq<string>)
    requires |segs| >= 2
    ensures Join(segs, '/') == segs[0] + "/" + Join(segs[1..], '/')
  {
  }

  lemma {:induction false} SplitAfterJoin(segs: seq<string>, t: string)
    requires |segs| > 0 && NoSlash(segs)
    ensures Split(Join(segs, '/') + "/" + t) == segs + Split(t)
    decreases |segs|
  {
    if |segs| == 1 {
      SplitAfterName(segs[0], t);
    } else {
      var head, tail := segs[0], segs[1..];
      var inner := Join(tail, '/') + "/" + t;
      JoinStep(segs);
      assert Join(segs, '/') + "/" + t == head + "/" + inner;
      SplitAfterName(head, inner);
      SplitAfterJoin(tail, t);
      assert [head] + tail == segs;
    }
  }

  /** Splitting undoes joining when no piece holds a slash. */
  lemma {:induction false} SplitJoin(segs: seq<string>)
    requires |segs| > 0 && NoSlash(segs)
    ensures Split(Join(segs, '/')) == segs
  {
    if |segs| == 1 {
      SplitName(segs[0]);
    } else {
      SplitAfterName(segs[0], Join(segs[1..], '/'));
      SplitJoin(segs[1..]);
      assert [segs[0]] + segs[1..] == segs;
    }
  }

  lemma {:induction false} JoinConcat(xs: seq<string>, ys: seq<string>)
    requires |xs| > 0 && |ys| > 0
    ensures Join(xs + ys, '/') == Join(xs, '/') + "/" + Join(ys, '/')
    decreases |xs|
  {
    if |xs| == 1 {
      assert (xs + ys)[1..] == ys;
    } else {
      assert (xs + ys)[1..] == xs[1..] + ys;
      JoinConcat(xs[1..], ys);
    }
  }

  // ---------------------------------------------------------------------
  // Normalisation

  /** Components are pushed unchanged. */
  lemma {:induction false} WalkNames(stack: seq<string>, segs: seq<string>)
    requires AllNames(stack) && AllNames(segs)
    ensures Walk(stack, segs) == stack + segs
    decreases |segs|
  {
    if segs != [] {
      WalkNames(stack + [segs[0]], segs[1..]);
      assert stack + [segs[0]] + segs[1..] == stack + segs;
    }
  }

  /** Walking a concatenation walks the two halves in turn. */
  lemma {:induction false} WalkConcat(stack: seq<string>, xs: seq<string>, ys: seq<string>)
    requires AllNames(stack) && NoSlash(xs) && NoSlash(ys)
    ensures NoSlash(xs + ys)
    ensures Walk(stack, xs + ys) == Walk(Walk(stack, xs), ys)
    decreases |xs|
  {
    assert NoSlash(xs + ys) by {
      forall i | 0 <= i < |xs + ys| ensures '/' !in (xs + ys)[i] {
        if i >= |xs| { assert (xs + ys)[i] == ys[i - |xs|]; }
      }
    }
    if xs == [] {
      assert xs + ys == ys;
    } else {
      assert (xs + ys)[0] == xs[0];
      assert (xs + ys)[1..] == xs[1..] + ys;
      var p := xs[0];
      var next := if p == "" || p == "." then stack
                  else if p == ".." then (if stack == [] then [] else stack[..|stack| - 1])
                  else stack + [p];
      WalkConcat(next, xs[1..], ys);
    }
  }

  /** Without a ".." piece nothing is popped, so the stack stays a prefix. */
  lemma {:induction false} WalkKeepsStack(stack: seq<string>, parts: seq<string>)
    requires AllNames(stack) && NoSlash(parts)
    requires forall i | 0 <= i < |parts| :: parts[i] != ".."
    ensures IsPrefix(stack, Walk(stack, parts))
    decreases |parts|
  {
    if parts != [] {
      var p := parts[0];
      var next := if p == "" || p == "." then stack else stack + [p];
      WalkKeepsStack(next, parts[1..]);
      var w := Walk(stack, parts);
      assert w == Walk(next, parts[1..]);
      assert next[..|stack|] == stack;
      assert w[..|stack|] == w[..|next|][..|stack|];
    }
  }

  /** The rendering of clean components normalises back to those components. */
  lemma ComponentsRender(segs: seq<string>)
    requires AllNames(segs)
    ensures Components(Render(segs)) == segs
    ensures Canonical(Render(segs))
  {
    var s := Render(segs);
    if segs == [] {
      assert s == "/";
      assert s[1..] == "";
      assert Split(s) == ["", ""];
      assert Walk([], ["", ""]) == Walk([], [""]) == [];
    } else {
      assert s[0] == '/' && s[1..] == Join(segs, '/');
      SplitJoin(segs);
      assert Split(s) == [""] + segs;
      assert ([""] + segs)[1..] == segs;
      WalkNames([], segs);
    }
  }

  /** Normalising twice is normalising once. */
  lemma NormalizeIdempotent(p: string)
    ensures Canonical(Normalize(p))
    ensures Components(Normalize(p)) == Components(p)
  {
    ComponentsRender(Components(p));
  }

  /** Distinct clean component lists render to distinct paths. */
  lemma RenderInjective(xs: seq<string>, ys: seq<string>)
    requires AllNames(xs) && AllNames(ys)
    ensures Render(xs) == Render(ys) <==> xs == ys
  {
    ComponentsRender(xs);
    ComponentsRender(ys);
  }

  /** The first component follows the leading slash directly, so no
      canonical path other than "/" begins with "//". */
  lemma NoDoubleSlash(segs: seq<string>)
    requires AllNames(segs) && segs != []
    ensures |Render(segs)| >= 2 && Render(segs)[1] != '/'
  {
    assert IsName(segs[0]);
    if |segs| > 1 {
      assert Join(segs, '/') == segs[0] + "/" + Join(segs[1..], '/');
    }
    assert Join(segs, '/')[0] == segs[0][0];
    assert Render(segs)[1] == segs[0][0];
  }

  // ---------------------------------------------------------------------
  // Containment

  /** For a base other than the root, the literal prefix test on canonical
      paths is exactly "the base's components are a prefix of the path's":
      a directory boundary, so a sibling such as "/srv2" of "/srv" fails. */
  lemma ContainedIffUnder(segs: seq<string>, baseSegs: seq<string>)
    requires AllNames(segs) && AllNames(baseSegs) && baseSegs != []
    ensures Contained(Render(segs), Render(baseSegs)) <==> IsPrefix(baseSegs, segs)
  {
    RenderInjective(segs, baseSegs);
    if IsPrefix(baseSegs, segs) && segs != baseSegs {
      UnderIsContained(segs, baseSegs);
    }
    if Render(segs) != Render(baseSegs) && IsPrefix(Render(baseSegs) + "/", Render(segs)) {
      ContainedIsUnder(segs, baseSegs);
    }
  }

  /** A path strictly below the base passes the literal test. */
  lemma UnderIsContained(segs: seq<string>, baseSegs: seq<string>)
    requires baseSegs != [] && IsPrefix(baseSegs, segs) && segs != baseSegs
    ensures IsPrefix(Render(baseSegs) + "/", Render(segs))
  {
    var p, base := Render(segs), Render(baseSegs);
    var tail := segs[|baseSegs|..];
    assert segs == baseSegs + tail;
    JoinConcat(baseSegs, tail);
    assert p == base + "/" + Join(tail, '/');
    assert p[..|base + "/"|] == base + "/";
  }

  /** A path passing the literal test strictly below a base other than the
      root has the base's components as a prefix. */
  lemma ContainedIsUnder(segs: seq<string>, baseSegs: seq<string>)
    requires AllNames(segs) && AllNames(baseSegs) && baseSegs != []
    requires IsPrefix(Render(baseSegs) + "/", Render(segs))
    ensures IsPrefix(baseSegs, segs)
  {
    var p, base := Render(segs), Render(baseSegs);
    var rest := p[|base| + 1..];
    assert p == base + "/" + rest;
    assert |base| >= 2 by { NoDoubleSlash(baseSegs); }
    assert segs != [];
    assert Join(segs, '/') == Join(baseSegs, '/') + "/" + rest by {
      assert p[1..] == Join(segs, '/');
      assert (base + "/" + rest)[1..] == Join(baseSegs, '/') + "/" + rest;
    }
    SplitJoin(segs);
    SplitAfterJoin(baseSegs, rest);
    assert segs == baseSegs + Split(rest);
    assert segs[..|baseSegs|] == baseSegs;
  }

  /** With the file-system root as base, "/" + "/" is the prefix tested, so
      the only canonical path accepted is the root itself. */
  lemma RootBaseAcceptsOnlyRoot(segs: seq<string>)
    requires AllNames(segs)
    ensures Contained(Render(segs), "/") <==> segs == []
  {
    if segs != [] {
      NoDoubleSlash(segs);
      assert Render(segs) != "/";
      assert Render(segs)[..2] != "//";
    }
  }

  /** A literal sibling of the base, the base followed by anything that does
      not start with '/', fails the containment test. */
  lemma SiblingRejected(base: string, suffix: string)
    requires suffix != [] && suffix[0] != '/'
    ensures !Contained(base + suffix, base)
  {
    var p := base + suffix;
    assert p[|base|] == suffix[0];
    assert (base + "/")[|base|] == '/';
    assert |base + "/"| <= |p| ==> p[..|base + "/"|][|base|] == p[|base|];
  }

  // ---------------------------------------------------------------------
  // Resolution against a canonical base

  /** A leading slash adds only an empty piece, which normalisation skips. */
  lemma ComponentsAfterSlash(x: string)
    ensures Components("/" + x) == Components(x)
  {
    var s := "/" + x;
    assert s[0] == '/' && s[1..] == x;
    assert Split(s) == [""] + Split(x);
    assert ([""] + Split(x))[1..] == Split(x);
    assert Walk([], [""] + Split(x)) == Walk([], Split(x));
  }

  /** Appending '/' and a remainder to a rendered path walks the remainder
      on top of its components. */
  lemma ComponentsBelow(baseSegs: seq<string>, rel: string)
    requires AllNames(baseSegs)
    ensures Components(Render(baseSegs) + "/" + rel) == Walk(baseSegs, Split(rel))
  {
    var combined := Render(baseSegs) + "/" + rel;
    if baseSegs == [] {
      assert combined == "/" + ("/" + rel);
      ComponentsAfterSlash("/" + rel);
      ComponentsAfterSlash(rel);
    } else {
      var x := Join(baseSegs, '/') + "/" + rel;
      assert combined == "/" + x;
      ComponentsAfterSlash(x);
      SplitAfterJoin(baseSegs, rel);
      assert Split(x) == baseSegs + Split(rel);
      WalkConcat([], baseSegs, Split(rel));
      WalkNames([], baseSegs);
      assert [] + baseSegs == baseSegs;
      assert Components(x) == Walk(baseSegs, Split(rel));
    }
  }

  /** A relative remainder is walked on top of the base's components. */
  lemma ResolveRelative(base: string, rel: string)
    requires Canonical(base)
    requires !(|rel| > 0 && rel[0] == '/')
    ensures Components(Resolve(base, rel)) == Walk(Components(base), Split(rel))
  {
    var baseSegs := Components(base);
    assert base == Render(baseSegs);
    var combined := base + "/" + rel;
    assert Resolve(base, rel) == Render(Components(combined));
    ComponentsRender(Components(combined));
    ComponentsBelow(baseSegs, rel);
  }

  /** Every path `urlPath` returns is canonical: no ".", ".." or empty
      component is left in it. */
  lemma AcceptedIsCanonical(base: string, decode: string -> Option<string>, url: string)
    requires UrlPath(base, decode, url).Ok?
    ensures Canonical(UrlPath(base, decode, url).value)
  {
    var decoded := decode(Pathname(url)).value;
    var rel := DropFirst(decoded);
    NormalizeIdempotent(if |rel| > 0 && rel[0] == '/' then rel else base + "/" + rel);
  }

  /** For a canonical base other than the root, a request is accepted exactly
      when its decoded, resolved path lies in the base's subtree, and then the
      resolved path is what `urlPath` returns. */
  lemma UrlPathIffUnderBase(base: string, decode: string -> Option<string>, url: string)
    requires Canonical(base) && base != "/"
    requires decode(Pathname(url)).Some?
    ensures var path := Resolve(base, DropFirst(decode(Pathname(url)).value));
            && (UrlPath(base, decode, url).Ok? <==> IsPrefix(Components(base), Components(path)))
            && (UrlPath(base, decode, url).Ok? ==> UrlPath(base, decode, url).value == path)
            && (UrlPath(base, decode, url).Err? ==> UrlPath(base, decode, url).error == Forbidden)
  {
    var path := Resolve(base, DropFirst(decode(Pathname(url)).value));
    var baseSegs := Components(base);
    var rel := DropFirst(decode(Pathname(url)).value);
    NormalizeIdempotent(if |rel| > 0 && rel[0] == '/' then rel else base + "/" + rel);
    assert Render(Components(path)) == path;
    assert Render(baseSegs) == base;
    assert baseSegs != [];
    ContainedIffUnder(Components(path), baseSegs);
  }

  /** A request whose remainder is relative and has no ".." component is
      always accepted, and names a path inside the base. */
  lemma DescendingRequestAccepted(base: string, decode: string -> Option<string>, url: string)
    requires Canonical(base) && base != "/"
    requires decode(Pathname(url)).Some?
    requires var rel := DropFirst(decode(Pathname(url)).value);
             && !(|rel| > 0 && rel[0] == '/')
             && forall i | 0 <= i < |Split(rel)| :: Split(rel)[i] != ".."
    ensures UrlPath(base, decode, url) == Ok(Resolve(base, DropFirst(decode(Pathname(url)).value)))
  {
    var rel := DropFirst(decode(Pathname(url)).value);
    ResolveRelative(base, rel);
    WalkKeepsStack(Components(base), Split(rel));
    UrlPathIffUnderBase(base, decode, url);
  }

  /** An empty pathname, or "/", names the base directory itself. */
  lemma EmptyPathIsBase(base: string, decode: string -> Option<string>, url: string)
    requires Canonical(base)
    requires decode(Pathname(url)) == Some("") || decode(Pathname(url)) == Some("/")
    ensures UrlPath(base, decode, url) == Ok(base)
  {
    ResolveRelative(base, "");
    assert Split("") == [""];
    var baseSegs := Components(base);
    assert Walk(baseSegs, [""]) == baseSegs;
    NormalizeIdempotent(base + "/" + "");
    assert Resolve(base, "") == Render(baseSegs);
    assert DropFirst("/") == "" && DropFirst("") == "";
  }

  /** "/.." climbs out of any base but the root and is refused with 403. */
  lemma ParentOfBaseForbidden(base: string, decode: string -> Option<string>, url: string)
    requires Canonical(base) && base != "/"
    requires decode(Pathname(url)) == Some("/..")
    ensures UrlPath(base, decode, url) == Err(Forbidden)
  {
    var baseSegs := Components(base);
    assert DropFirst("/..") == "..";
    ResolveRelative(base, "..");
    SplitName("..");
    var path := Resolve(base, "..");
    assert Components(path) == baseSegs[..|baseSegs| - 1];
    UrlPathIffUnderBase(base, decode, url);
  }
}
