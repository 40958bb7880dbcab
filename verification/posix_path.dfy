/**
 The two operations of Rust's `std::path` that the pod log helpers rely on,
 for POSIX targets: iterating over the components of a path (`Path::iter`) and
 appending to a path (`Path::join`, which is `PathBuf::push` on a copy).

 A path is a string. Its components are its `/`-separated pieces with empty
 pieces (repeated and trailing separators) and `.` pieces dropped, preceded by
 the root directory `/` when the path is absolute, or by a `.` when a relative
 path starts with the current directory. `..` is kept as an ordinary component.
 */
module PosixPath {
  import opened Text

  const Separator: char := '/'
  const RootDir: string := "/"
  const CurDir: string := "."

  /** An absolute path starts at the root directory. */
  predicate IsAbsolute(path: string) {
    |path| > 0 && path[0] == Separator
  }

  /** A piece that names a component: neither empty nor the current directory. */
  predicate IsNormal(piece: string) {
    piece != "" && piece != CurDir
  }

  /** The normal pieces of `pieces`, in order. */
  function NormalPieces(pieces: seq<string>): (normal: seq<string>)
    ensures |normal| <= |pieces|
    ensures forall i :: 0 <= i < |normal| ==> IsNormal(normal[i]) && normal[i] in pieces
    ensures forall x :: x in pieces && IsNormal(x) ==> x in normal
  {
    if |pieces| == 0 then []
    else if IsNormal(pieces[0]) then [pieces[0]] + NormalPieces(pieces[1..])
    else NormalPieces(pieces[1..])
  }

  /** The components `Path::iter` yields for `path`. */
  function Components(path: string): (cs: seq<string>)
    ensures forall i :: 0 <= i < |cs| ==> cs[i] != ""
    ensures forall i :: 0 <= i < |cs| ==> cs[i] == RootDir || Separator !in cs[i]
    ensures IsAbsolute(path) <==> |cs| > 0 && cs[0] == RootDir
    ensures forall i :: 1 <= i < |cs| ==> IsNormal(cs[i]) && Separator !in cs[i]
  {
    var pieces := Split(path, Separator);
    SplitPiecesLackSeparator(path, Separator);
    if IsAbsolute(path) then [RootDir] + NormalPieces(pieces)
    else if pieces[0] == CurDir then [CurDir] + NormalPieces(pieces[1..])
    else NormalPieces(pieces)
  }

  /** `base.join(p)`: an absolute `p` replaces `base`; otherwise `p` is appended,
      with a separator in between unless `base` is empty or already ends in one. */
  function Push(base: string, p: string): (joined: string)
    ensures IsAbsolute(p) ==> joined == p
    ensures !IsAbsolute(p) ==> joined == base + p || joined == base + [Separator] + p
    ensures !IsAbsolute(p)
            ==> (joined == base + [Separator] + p <==> |base| > 0 && base[|base| - 1] != Separator)
  {
    if IsAbsolute(p) then p
    else if |base| > 0 && base[|base| - 1] != Separator then base + [Separator] + p
    else base + p
  }

  /** Normal pieces of a concatenation are the concatenation of the normal pieces. */
  lemma {:induction false} NormalPiecesAppend(a: seq<string>, b: seq<string>)
    ensures NormalPieces(a + b) == NormalPieces(a) + NormalPieces(b)
    decreases |a|
  {
    if |a| > 0 {
      assert (a + b)[0] == a[0];
      assert (a + b)[1..] == a[1..] + b;
      NormalPiecesAppend(a[1..], b);
      if IsNormal(a[0]) {
        ConcatAssociative([a[0]], NormalPieces(a[1..]), NormalPieces(b));
      }
    } else {
      assert a + b == b;
    }
  }

  /** `Components` in terms of the pieces of an already split path. */
  lemma ComponentsOfPieces(path: string, pieces: seq<string>)
    requires pieces == Split(path, Separator)
    ensures IsAbsolute(path) ==> Components(path) == [RootDir] + NormalPieces(pieces)
    ensures !IsAbsolute(path) && pieces[0] == CurDir
            ==> Components(path) == [CurDir] + NormalPieces(pieces[1..])
    ensures !IsAbsolute(path) && pieces[0] != CurDir ==> Components(path) == NormalPieces(pieces)
  {
  }

  /** Appending `/p` to a non-empty path adds exactly the normal pieces of `p`,
      whatever `p` starts with. */
  lemma ComponentsOfChild(dir: string, p: string)
    requires |dir| > 0
    ensures Components(dir + [Separator] + p) == Components(dir) + NormalPieces(Split(p, Separator))
  {
    var path := dir + [Separator] + p;
    var a := Split(dir, Separator);
    var b := Split(p, Separator);
    assert Split(path, Separator) == a + b by {
      SplitAroundSeparator(dir, p, Separator);
    }
    assert IsAbsolute(path) == IsAbsolute(dir);
    assert (a + b)[0] == a[0];
    if IsAbsolute(dir) {
      ComponentsOfChildAbsolute(dir, path, a, b);
    } else if a[0] == CurDir {
      ComponentsOfChildCurDir(dir, path, a, b);
    } else {
      ComponentsOfChildNormal(dir, path, a, b);
    }
  }

  /** `ComponentsOfChild` when the directory is absolute. */
  lemma ComponentsOfChildAbsolute(dir: string, path: string, a: seq<string>, b: seq<string>)
    requires a == Split(dir, Separator) && a + b == Split(path, Separator)
    requires IsAbsolute(dir) && IsAbsolute(path)
    ensures Components(path) == Components(dir) + NormalPieces(b)
  {
    ComponentsOfPieces(dir, a);
    ComponentsOfPieces(path, a + b);
    NormalPiecesAppend(a, b);
    ConcatAssociative([RootDir], NormalPieces(a), NormalPieces(b));
  }

  /** `ComponentsOfChild` when the directory is relative and starts with `.`. */
  lemma ComponentsOfChildCurDir(dir: string, path: string, a: seq<string>, b: seq<string>)
    requires a == Split(dir, Separator) && a + b == Split(path, Separator)
    requires !IsAbsolute(dir) && !IsAbsolute(path) && a[0] == CurDir
    ensures Components(path) == Components(dir) + NormalPieces(b)
  {
    assert (a + b)[0] == a[0];
    assert (a + b)[1..] == a[1..] + b;
    ComponentsOfPieces(dir, a);
    ComponentsOfPieces(path, a + b);
    NormalPiecesAppend(a[1..], b);
    ConcatAssociative([CurDir], NormalPieces(a[1..]), NormalPieces(b));
  }

  /** `ComponentsOfChild` when the directory is relative and starts with a name. */
  lemma ComponentsOfChildNormal(dir: string, path: string, a: seq<string>, b: seq<string>)
    requires a == Split(dir, Separator) && a + b == Split(path, Separator)
    requires !IsAbsolute(dir) && !IsAbsolute(path) && a[0] != CurDir
    ensures Components(path) == Components(dir) + NormalPieces(b)
  {
    assert (a + b)[0] == a[0];
    ComponentsOfPieces(dir, a);
    ComponentsOfPieces(path, a + b);
    NormalPiecesAppend(a, b);
  }

  /** Whatever precedes them, the normal pieces of a path are its last components. */
  lemma ComponentsEndWithNormalPieces(path: string)
    ensures var cs, n := Components(path), NormalPieces(Split(path, Separator));
            |n| <= |cs| && cs[|cs| - |n|..] == n
  {
    var pieces := Split(path, Separator);
    if IsAbsolute(path) {
      assert [RootDir] + NormalPieces(pieces) == Components(path);
    } else {
      assert pieces == [pieces[0]] + pieces[1..];
      NormalPiecesAppend([pieces[0]], pieces[1..]);
    }
  }

  /** Joining a relative path onto a non-empty one appends exactly the relative
      path's normal pieces to the components. */
  lemma PushComponents(base: string, p: string)
    requires |base| > 0 && !IsAbsolute(p)
    ensures Components(Push(base, p)) == Components(base) + NormalPieces(Split(p, Separator))
  {
    if base[|base| - 1] != Separator {
      assert Push(base, p) == base + [Separator] + p;
      ComponentsOfChild(base, p);
    } else {
      assert Push(base, p) == base + p;
      ComponentsAfterSeparator(base, p);
    }
  }

  /** Appending to a path that already ends in `/` adds the named pieces of
      what is appended. */
  lemma ComponentsAfterSeparator(base: string, p: string)
    requires |base| > 0 && base[|base| - 1] == Separator
    ensures Components(base + p) == Components(base) + NormalPieces(Split(p, Separator))
  {
    var x := base[..|base| - 1];
    assert base == x + [Separator];
    assert base + p == x + [Separator] + p;
    if |x| > 0 {
      ComponentsAfterTrailingSeparator(x, p);
    } else {
      PushComponentsFromRoot(p);
    }
  }

  /** `ComponentsAfterSeparator` for a base `x/` with `x` non-empty: the
      trailing separator adds no component. */
  lemma ComponentsAfterTrailingSeparator(x: string, p: string)
    requires |x| > 0
    ensures Components(x + [Separator] + p) == Components(x + [Separator]) + NormalPieces(Split(p, Separator))
  {
    ComponentsOfChild(x, p);
    ComponentsOfChild(x, "");
    assert x + [Separator] + "" == x + [Separator];
    assert NormalPieces(Split("", Separator)) == [] by {
      assert Split("", Separator) == [""];
      assert [""][1..] == [];
    }
    assert Components(x) + [] == Components(x);
  }

  /** `PushComponents` for the base `/`. */
  lemma PushComponentsFromRoot(p: string)
    ensures Components([Separator] + p) == [RootDir] + NormalPieces(Split(p, Separator))
    ensures Components([Separator]) == [RootDir]
  {
    SplitAroundSeparator("", p, Separator);
    assert "" + [Separator] + p == [Separator] + p;
    SplitAroundSeparator("", "", Separator);
    assert "" + [Separator] + "" == [Separator];
    assert Split("", Separator) == [""];
    ComponentsOfPieces([Separator] + p, [""] + Split(p, Separator));
    ComponentsOfPieces([Separator], ["", ""]);
    NormalPiecesAppend([""], Split(p, Separator));
  }

  /** A single normal name is a single component. */
  lemma NormalPiecesOfName(name: string)
    requires IsNormal(name) && Separator !in name
    ensures NormalPieces(Split(name, Separator)) == [name]
  {
    SplitWithoutSeparator(name, Separator);
    assert [name][1..] == [];
  }

  /** A path that splits into an empty piece followed by names is absolute and
      has the root directory followed by those names as its components. */
  lemma ComponentsOfRootedNames(path: string, names: seq<string>)
    requires |names| > 0 && Split(path, Separator) == [""] + names
    requires forall i :: 0 <= i < |names| ==> IsNormal(names[i])
    ensures Components(path) == [RootDir] + names
  {
    JoinSplit(path, Separator);
    assert IsAbsolute(path) by {
      JoinCons("", names, Separator);
    }
    NormalPiecesAppend([""], names);
    AllNormal(names);
  }

  /** Pieces that are all normal are kept whole. */
  lemma {:induction false} AllNormal(names: seq<string>)
    requires forall i :: 0 <= i < |names| ==> IsNormal(names[i])
    ensures NormalPieces(names) == names
    decreases |names|
  {
    if |names| > 0 {
      AllNormal(names[1..]);
    }
  }
}
