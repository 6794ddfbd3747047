/** The index of tracked files and directories that tells which declared paths of an inbox item are gone
    (go/cmd/evolve/cmd_inbox.go). */
module TrackedIndex {
  import opened Base

  const SLASH := '/'
  const HERE := "."
  const ROOT := "/"

  predicate IsPrefix(a: string, b: string) { |a| <= |b| && b[..|a|] == a }

  /** What of the shape of a cleaned path matters here. */
  predicate IsClean(p: string) {
    || p == HERE
    || p == ROOT
    || (&& p != "" && p[|p| - 1] != SLASH && !IsPrefix("./", p)
        && forall i :: 0 <= i < |p| - 1 ==> !(p[i] == SLASH && p[i + 1] == SLASH))
  }

  /** Path cleaning, as far as it is known: it gives cleaned paths. */
  ghost predicate Cleans(clean: string -> string) { forall p :: IsClean(clean(p)) }

  function LastSlash(p: string): (i: int)
    ensures -1 <= i < |p|
    ensures i >= 0 ==> p[i] == SLASH
    ensures forall j :: i < j < |p| ==> p[j] != SLASH
  {
    if p == "" then -1
    else if p[|p| - 1] == SLASH then |p| - 1
    else LastSlash(p[..|p| - 1])
  }

  /** The directory of a cleaned path. */
  function Dir(p: string): string {
    var i := LastSlash(p);
    if i < 0 then HERE else if i == 0 then ROOT else p[..i]
  }

  predicate IsTop(d: string) { d == HERE || d == ROOT || d == "" }

  lemma DirIsClean(p: string)
    requires IsClean(p) && !IsTop(p)
    ensures IsClean(Dir(p)) && (IsTop(Dir(p)) || |Dir(p)| < |p|)
  {
    var i := LastSlash(p);
    if i > 0 {
      var d := p[..i];
      forall k | 0 <= k < |d| - 1 ensures !(d[k] == SLASH && d[k + 1] == SLASH) {
        assert d[k] == p[k] && d[k + 1] == p[k + 1];
      }
    }
  }

  /** The directories above a path, by the definition of being above: the path goes on behind them. */
  predicate IsAbove(d: string, p: string) { d != "" && IsPrefix(d + "/", p) }

  lemma AboveStep(d: string, p: string)
    requires IsClean(p) && !IsTop(p)
    ensures IsAbove(d, p) <==> !IsTop(Dir(p)) && (d == Dir(p) || IsAbove(d, Dir(p)))
  {
    var i := LastSlash(p);
    var dir := Dir(p);
    if IsAbove(d, p) {
      assert p[|d|] == (d + "/")[|d|] == SLASH;
      assert p[..|d|] == d;
      assert |d| <= i;
      if i > |d| {
        assert dir[..|d| + 1] == p[..|d| + 1];
      } else {
        assert d == dir;
        assert p[..i + 1] == d + "/";
      }
    }
    if !IsTop(dir) && d == dir {
      assert i > 0 && p[..i + 1] == d + "/";
    }
    if !IsTop(dir) && IsAbove(d, dir) {
      assert p[..|d| + 1] == dir[..|d| + 1];
    }
  }

  // ---------------------------------------------------------------- the index

  method AddParents(file: string, dirs: set<string>) returns (all: set<string>)
    requires IsClean(file) && !IsTop(file)
    ensures forall d :: d in all <==> d in dirs || IsAbove(d, file)
  {
    all := dirs;
    AboveAll(file);
    var d := Dir(file);
    DirIsClean(file);
    while !IsTop(d)
      invariant IsClean(d)
      invariant forall x :: x in all || (!IsTop(d) && (x == d || IsAbove(x, d))) <==> x in dirs || IsAbove(x, file)
      decreases if IsTop(d) then 0 else |d|
    {
      AboveAll(d);
      DirIsClean(d);
      all := all + {d};
      d := Dir(d);
    }
  }

  lemma AboveAll(p: string)
    requires IsClean(p) && !IsTop(p)
    ensures forall d :: IsAbove(d, p) <==> !IsTop(Dir(p)) && (d == Dir(p) || IsAbove(d, Dir(p)))
  {
    forall d ensures IsAbove(d, p) <==> !IsTop(Dir(p)) && (d == Dir(p) || IsAbove(d, Dir(p))) {
      AboveStep(d, p);
    }
  }

  ghost predicate AboveSome(d: string, paths: seq<string>, clean: string -> string) {
    exists i :: 0 <= i < |paths| && IsAbove(d, clean(paths[i]))
  }

  method BuildIndex(tracked: seq<string>, clean: string -> string) returns (files: set<string>, dirs: set<string>)
    requires Cleans(clean)
    ensures forall p :: p in files <==> exists i :: 0 <= i < |tracked| && clean(tracked[i]) == p
    ensures forall d :: d in dirs <==> AboveSome(d, tracked, clean)
  {
    files, dirs := {}, {};
    for n := 0 to |tracked|
      invariant forall p :: p in files <==> exists i :: 0 <= i < n && clean(tracked[i]) == p
      invariant forall d :: d in dirs <==> exists i :: 0 <= i < n && IsAbove(d, clean(tracked[i]))
    {
      var file := clean(tracked[n]);
      files := files + {file};
      if IsTop(file) {
        NothingAbove(file);
      } else {
        dirs := AddParents(file, dirs);
      }
    }
  }

  lemma NothingAbove(p: string)
    requires IsTop(p)
    ensures forall d :: !IsAbove(d, p)
  {
  }

  // ---------------------------------------------------------------- the lint

  datatype Item = Item(id: string, paths: seq<string>)

  datatype Warning = Warning(id: string, path: string)

  /** A path is gone when it is no tracked file and no directory of one. */
  ghost predicate Gone(path: string, tracked: seq<string>, clean: string -> string) {
    forall i :: 0 <= i < |tracked| ==> clean(tracked[i]) != clean(path) && !IsAbove(clean(path), clean(tracked[i]))
  }

  ghost function GonePaths(id: string, paths: seq<string>, tracked: seq<string>, clean: string -> string): seq<Warning> {
    if paths == [] then []
    else
      var last := paths[|paths| - 1];
      GonePaths(id, paths[..|paths| - 1], tracked, clean) + if Gone(last, tracked, clean) then [Warning(id, last)] else []
  }

  ghost function GoneItems(items: seq<Item>, tracked: seq<string>, clean: string -> string): seq<Warning> {
    if items == [] then []
    else
      var last := items[|items| - 1];
      GoneItems(items[..|items| - 1], tracked, clean) + GonePaths(last.id, last.paths, tracked, clean)
  }

  /** Warns of the declared paths that are gone, and of no others, in the order of the items and of their paths;
      says nothing when the tree cannot be listed. */
  method LintDeadPaths(tree: Option<seq<string>>, items: seq<Item>, clean: string -> string) returns (warnings: seq<Warning>)
    requires Cleans(clean)
    ensures warnings == if tree == None then [] else GoneItems(items, tree.value, clean)
  {
    warnings := [];
    if tree == None {
      return;
    }
    var tracked := tree.value;
    var files, dirs := BuildIndex(tracked, clean);
    for n := 0 to |items|
      invariant warnings == GoneItems(items[..n], tracked, clean)
    {
      var item := items[n];
      assert items[..n + 1][..n] == items[..n];
      ghost var before := warnings;
      for m := 0 to |item.paths|
        invariant warnings == before + GonePaths(item.id, item.paths[..m], tracked, clean)
      {
        var path := item.paths[m];
        assert item.paths[..m + 1][..m] == item.paths[..m];
        var p := clean(path);
        GoneByIndex(path, tracked, clean, files, dirs);
        if p !in files && p !in dirs {
          warnings := warnings + [Warning(item.id, path)];
        }
      }
      assert item.paths[..|item.paths|] == item.paths;
    }
    assert items[..|items|] == items;
  }

  lemma GoneByIndex(path: string, tracked: seq<string>, clean: string -> string, files: set<string>, dirs: set<string>)
    requires forall p :: p in files <==> exists i :: 0 <= i < |tracked| && clean(tracked[i]) == p
    requires forall d :: d in dirs <==> AboveSome(d, tracked, clean)
    ensures Gone(path, tracked, clean) <==> clean(path) !in files && clean(path) !in dirs
  {
    hide IsAbove;
  }

  lemma TopIsAboveNothing(d: string, p: string)
    requires IsTop(d) && IsClean(p)
    ensures !IsAbove(d, p)
  {
    if |p| >= 2 {
      assert p[..2][0] == p[0] && p[..2][1] == p[1];
    }
  }

  /** The top of the tree itself, declared as a path, is reported gone although everything is below it: no cleaned
      path goes on behind "." or "/". */
  lemma TopIsAlwaysGone(path: string, tracked: seq<string>, clean: string -> string)
    requires Cleans(clean) && (clean(path) == "." || clean(path) == "/") && forall i :: 0 <= i < |tracked| ==> clean(tracked[i]) != clean(path)
    ensures Gone(path, tracked, clean)
  {
    forall i | 0 <= i < |tracked| ensures !IsAbove(clean(path), clean(tracked[i])) {
      TopIsAboveNothing(clean(path), clean(tracked[i]));
    }
  }
}
