/**
 * The builder `create_structure` (fstree.py:91-121) over an abstract disk: a
 * map from normalised path to file text plus a set of directory paths.  The
 * disk is the class `FileSystem`, whose `CreateStructure` loop is proved to
 * do what the specification `AfterBuild` says; the properties of the build
 * (write only when absent or overwriting, idempotence) are lemmas about it.
 */
module Builder {
  import opened Wrappers
  import opened PyStr
  import opened PathModel

  /** `DEFAULT_CONTENT` (fstree.py:14-27): starter text by lower-case extension. */
  const DefaultContent: map<string, string> := map[
    ".php" := "<?php\n\n",
    ".yaml" := "# YAML configuration\n",
    ".yml" := "# YAML configuration\n",
    ".json" := "{\n}\n",
    ".html" := "<!DOCTYPE html>\n<html>\n<head>\n</head>\n<body>\n</body>\n</html>\n",
    ".twig" := "{# Twig template #}\n",
    ".md" := "# Document\n",
    ".txt" := "",
    ".py" := "#!/usr/bin/env python3\n\n",
    ".sh" := "#!/bin/bash\n\n",
    ".bat" := "@echo off\n",
    "" := ""
  ]

  /** `DEFAULT_CONTENT.get(splitext(rel.lower())[1], "")` (fstree.py:113-115). */
  function DefaultFor(rel: string): (r: string)
    ensures r in DefaultContent.Values
    ensures Extension(Lower(rel)) in DefaultContent ==> r == DefaultContent[Extension(Lower(rel))]
    ensures Extension(Lower(rel)) !in DefaultContent ==> r == ""
  {
    var ext := Extension(Lower(rel));
    if ext in DefaultContent then DefaultContent[ext] else DefaultContent[""]
  }

  /** `lower()` works character by character. */
  lemma {:induction false} LowerAppend(a: string, b: string)
    ensures Lower(a + b) == Lower(a) + Lower(b)
    decreases |a|
  {
    if a == [] {
      assert a + b == b;
    } else {
      assert (a + b)[0] == a[0] && (a + b)[1..] == a[1..] + b;
      LowerAppend(a[1..], b);
    }
  }

  /** `splitext` once the last separator and the last dot are known. */
  lemma ExtensionAt(p: string, sepIndex: int, dotIndex: int, j: int)
    requires RFindChar(p, Sep) == sepIndex && RFindChar(p, '.') == dotIndex
    requires sepIndex + 1 <= j < dotIndex && p[j] != '.'
    ensures Extension(p) == p[dotIndex..]
  {
  }

  /** The extension of a last component `stem.ext`, below a directory part
      that is empty or ends with a separator, is `.ext` when the stem is not
      all dots. */
  lemma ExtensionAfter(head: string, stem: string, ext: string)
    requires head == [] || head[|head| - 1] == Sep
    requires Sep !in stem && Sep !in ext && '.' !in ext
    requires exists k :: 0 <= k < |stem| && stem[k] != '.'
    ensures Extension(head + stem + ['.'] + ext) == ['.'] + ext
  {
    var p := head + stem + ['.'] + ext;
    var k :| 0 <= k < |stem| && stem[k] != '.';
    StemExtParts(head, stem, ext, k);
    SepIndexAfter(head, stem + ['.'] + ext);
    RFindCharLast(head + stem, '.', ext);
    ExtensionAt(p, |head| - 1, |head + stem|, |head| + k);
  }

  lemma StemExtParts(head: string, stem: string, ext: string, k: nat)
    requires k < |stem| && Sep !in stem && Sep !in ext
    ensures var p := head + stem + ['.'] + ext;
      && p == head + (stem + ['.'] + ext) && Sep !in stem + ['.'] + ext
      && p == (head + stem) + ['.'] + ext
      && p[|head| + k] == stem[k]
      && p[|head + stem|..] == ['.'] + ext
  {
    var p := head + stem + ['.'] + ext;
    assert p[|head + stem|..] == ['.'] + ext;
  }

  /** `lower()` leaves a character that is not a letter where it is, and
      puts it nowhere else. */
  lemma LowerKeeps(s: string, c: char)
    requires !('A' <= c <= 'Z') && !('a' <= c <= 'z')
    ensures forall i :: 0 <= i < |s| ==> (Lower(s)[i] == c <==> s[i] == c)
  {
  }

  /** `lower()` of `head + stem + "." + ext`, piece by piece. */
  lemma LowerPieces(head: string, stem: string, ext: string)
    ensures Lower(head + stem + ['.'] + ext) == Lower(head) + Lower(stem) + ['.'] + Lower(ext)
  {
    LowerAppend(head, stem);
    LowerAppend(head + stem, ['.']);
    LowerAppend(head + stem + ['.'], ext);
    assert Lower(['.']) == ['.'];
  }

  lemma LowerNoChar(s: string, c: char)
    requires !('A' <= c <= 'Z') && !('a' <= c <= 'z') && c !in s
    ensures c !in Lower(s)
  {
    LowerKeeps(s, c);
  }

  /** A name with no dot at all has no extension, and gets the empty text:
      `Makefile` is created empty. */
  lemma DefaultForNoExtension(rel: string)
    requires '.' !in rel
    ensures DefaultFor(rel) == ""
  {
    LowerNoChar(rel, '.');
    ExtensionNoDot(Lower(rel));
  }

  lemma LowerLastSep(head: string)
    requires head == [] || head[|head| - 1] == Sep
    ensures Lower(head) == [] || Lower(head)[|head| - 1] == Sep
  {
    LowerKeeps(head, Sep);
  }

  lemma LowerNotAllDots(stem: string)
    requires exists k :: 0 <= k < |stem| && stem[k] != '.'
    ensures exists k :: 0 <= k < |Lower(stem)| && Lower(stem)[k] != '.'
  {
    var k :| 0 <= k < |stem| && stem[k] != '.';
    LowerKeeps(stem, '.');
    assert Lower(stem)[k] != '.';
  }

  /** The default text is chosen by the lower-cased last extension alone: for
      a last component `stem.ext` (the stem not all dots), it is the table's
      entry for `.ext` lower-cased, or "" when there is none. */
  lemma DefaultForByExtension(head: string, stem: string, ext: string)
    requires head == [] || head[|head| - 1] == Sep
    requires Sep !in stem && Sep !in ext && '.' !in ext
    requires exists k :: 0 <= k < |stem| && stem[k] != '.'
    ensures var key := ['.'] + Lower(ext);
      DefaultFor(head + stem + ['.'] + ext) == if key in DefaultContent then DefaultContent[key] else ""
  {
    assert DefaultContent[""] == "";
    LowerPieces(head, stem, ext);
    LowerLastSep(head);
    LowerNoChar(stem, Sep);
    LowerNoChar(ext, Sep);
    LowerNoChar(ext, '.');
    LowerNotAllDots(stem);
    ExtensionAfter(Lower(head), Lower(stem), Lower(ext));
  }

  /** The table is keyed by the lower-cased extension: `Main.PY` gets the Python text. */
  lemma DefaultForUpperCase()
    ensures DefaultFor("Main.PY") == "#!/usr/bin/env python3\n\n"
  {
    assert ".py" in DefaultContent && DefaultContent[".py"] == "#!/usr/bin/env python3\n\n";
    assert "Main.PY" == [] + "Main" + ['.'] + "PY";
    assert ['.'] + Lower("PY") == ".py";
    assert "Main"[0] != '.';
    DefaultForByExtension([], "Main", "PY");
  }

  /** Only the last extension counts: `run.sh.BAT` gets the `.bat` text. */
  lemma DefaultForLastExtension()
    ensures DefaultFor("run.sh.BAT") == "@echo off\n"
  {
    assert ".bat" in DefaultContent && DefaultContent[".bat"] == "@echo off\n";
    assert "run.sh.BAT" == [] + "run.sh" + ['.'] + "BAT";
    assert ['.'] + Lower("BAT") == ".bat";
    assert "run.sh"[0] != '.';
    DefaultForByExtension([], "run.sh", "BAT");
  }

  /** A leading dot does not start an extension: `.md` has none and gets "". */
  lemma DefaultForDotFile()
    ensures DefaultFor(".md") == ""
  {
    var l := ".md";
    assert Lower(".md") == l;
    assert Extension(l) == "" by {
      RFindCharNone(l, Sep);
      assert l == "" + ['.'] + "md";
      RFindCharLast("", '.', "md");
    }
    assert DefaultContent[""] == "";
  }

  /** An empty file is dumped without a content block, so nothing is captured
      for it and the build gives it the starter text of its extension: a
      `README.md` in any directory comes back as "# Document\n", not empty. */
  lemma EmptyReadmeGetsTemplate(dir: string)
    ensures DefaultFor(dir + "/README.md") == "# Document\n"
  {
    assert ".md" in DefaultContent && DefaultContent[".md"] == "# Document\n";
    var head := dir + "/";
    assert dir + "/README.md" == head + "README" + ['.'] + "md";
    assert ['.'] + Lower("md") == ".md";
    assert head[|head| - 1] == Sep;
    assert "README"[0] != '.';
    DefaultForByExtension(head, "README", "md");
  }

  /** The keys `get_content_for` tries, in order (fstree.py:93-97).  With `/` as
      the separator both separator replacements leave `rel` unchanged. */
  function ContentKeys(rel: string): seq<string> {
    [rel, rel, rel, NormPath(rel)]
  }

  /** The index of the first key present in the map, or -1. */
  function FirstPresent(keys: seq<string>, contents: map<string, string>): (i: int)
    ensures -1 <= i < |keys|
    ensures i >= 0 ==> keys[i] in contents
    ensures forall j :: 0 <= j < |keys| && (i < 0 || j < i) ==> keys[j] !in contents
  {
    if keys == [] then -1
    else if keys[0] in contents then 0
    else
      var i := FirstPresent(keys[1..], contents);
      if i < 0 then -1 else i + 1
  }

  /** `get_content_for(rel)` (fstree.py:93-97): the entry for `rel` itself, else
      for its normalised form, else nothing. */
  function GetContentFor(rel: string, contents: map<string, string>): (r: Option<string>)
    ensures rel in contents ==> r == Some(contents[rel])
    ensures rel !in contents && NormPath(rel) in contents ==> r == Some(contents[NormPath(rel)])
    ensures r.None? <==> rel !in contents && NormPath(rel) !in contents
  {
    var keys := ContentKeys(rel);
    var i := FirstPresent(keys, contents);
    assert keys[0] == rel && keys[3] == NormPath(rel);
    assert rel !in contents && i >= 0 ==> i == 3;
    if i < 0 then None else Some(contents[keys[i]])
  }

  /** The text a written file gets (fstree.py:112-115). */
  function ContentFor(rel: string, contents: map<string, string>): (r: string)
    ensures rel in contents ==> r == contents[rel]
    ensures rel !in contents && NormPath(rel) in contents ==> r == contents[NormPath(rel)]
    ensures rel !in contents && NormPath(rel) !in contents ==> r == DefaultFor(rel)
  {
    match GetContentFor(rel, contents)
    case Some(c) => c
    case None => DefaultFor(rel)
  }

  // ---- The disk ----

  /** A snapshot of the disk: file paths with their text, and directory paths. */
  datatype Disk = Disk(files: map<string, string>, dirs: set<string>)

  /** The outcome of an operation: the disk after it, and whether it completed
      (an exception aborts the build, fstree.py:99-121). */
  datatype Outcome = Outcome(disk: Disk, ok: bool)

  predicate Exists(d: Disk, p: string) {
    p in d.files || p in d.dirs
  }

  /** No path is both a file and a directory. */
  ghost predicate Disjoint(d: Disk) {
    forall p :: p in d.files ==> p !in d.dirs
  }

  /** The directories above `p`, by repeated `dirname` until it is empty or fixed. */
  function Ancestors(p: string): (r: set<string>)
    ensures forall q :: q in r ==> |q| < |p| && q == p[..|q|]
    decreases |p|
  {
    var h := Dirname(p);
    if h == "" || h == p then {} else {h} + Ancestors(h)
  }

  /** `p` and every directory above it: what `os.makedirs(p)` creates. */
  function Chain(p: string): (r: set<string>)
    ensures p in r
    ensures forall q :: q in r ==> |q| <= |p|
  {
    {p} + Ancestors(p)
  }

  /** `os.makedirs(p, exist_ok=True)`: fails when `p` or a directory above it is
      a file; otherwise every missing one becomes a directory. */
  function AfterMakeDirs(d: Disk, p: string): (o: Outcome)
    ensures o.ok <==> forall q :: q in Chain(p) ==> q !in d.files
    ensures o.ok ==> o.disk == d.(dirs := d.dirs + Chain(p))
    ensures !o.ok ==> o.disk == d
  {
    if Chain(p) !! d.files.Keys then Outcome(d.(dirs := d.dirs + Chain(p)), true)
    else Outcome(d, false)
  }

  /** `open(target, "w").write(content)`: fails on a directory or under a file. */
  function AfterWrite(d: Disk, target: string, parent: string, content: string): (o: Outcome)
    ensures o.ok <==> target !in d.dirs && (parent == "" || parent !in d.files)
    ensures o.ok ==> o.disk == d.(files := d.files[target := content])
    ensures !o.ok ==> o.disk == d
  {
    if target in d.dirs || (parent != "" && parent in d.files) then Outcome(d, false)
    else Outcome(d.(files := d.files[target := content]), true)
  }

  /** `os.path.normpath(os.path.join(base_dir, rel))` (fstree.py:100). */
  function Target(base: string, rel: string): string {
    NormPath(PyJoin(base, [rel]))
  }

  /** One iteration of the build loop (fstree.py:99-121). */
  function AfterStep(d: Disk, base: string, rel: string, contents: map<string, string>, overwrite: bool): Outcome {
    StepAt(d, Target(base, rel), rel, ContentFor(rel, contents), overwrite)
  }

  /** The iteration once the target is known: a directory entry is made with its
      parents; a file entry gets its parent made if missing, then is written
      when absent or when overwriting. */
  function StepAt(d: Disk, target: string, rel: string, content: string, overwrite: bool): Outcome {
    if EndsWithChar(rel, Sep) then AfterMakeDirs(d, target)
    else
      var parent := Dirname(target);
      var prep := if parent != "" && !Exists(d, parent) then AfterMakeDirs(d, parent) else Outcome(d, true);
      if !prep.ok then prep
      else if !Exists(prep.disk, target) || overwrite then AfterWrite(prep.disk, target, parent, content)
      else prep
  }

  /** The whole build: the steps in order, stopping at the first failure. */
  function AfterBuild(d: Disk, base: string, paths: seq<string>, contents: map<string, string>, overwrite: bool): Outcome
    decreases |paths|
  {
    if paths == [] then Outcome(d, true)
    else
      var o := AfterStep(d, base, paths[0], contents, overwrite);
      if !o.ok then o else AfterBuild(o.disk, base, paths[1..], contents, overwrite)
  }

  /** The fold from position `i` is the step at `i` followed by the fold from `i + 1`. */
  lemma AfterBuildAt(d: Disk, base: string, paths: seq<string>, i: nat, contents: map<string, string>, overwrite: bool)
    requires i < |paths|
    ensures var step := AfterStep(d, base, paths[i], contents, overwrite);
      AfterBuild(d, base, paths[i..], contents, overwrite)
      == if !step.ok then step else AfterBuild(step.disk, base, paths[i + 1..], contents, overwrite)
  {
    assert paths[i..][0] == paths[i] && paths[i..][1..] == paths[i + 1..];
  }

  // ---- Properties of the build ----

  /** The disk only grows: no directory or file path disappears, and no path
      becomes both a file and a directory. */
  ghost predicate Grows(d: Disk, e: Disk) {
    d.dirs <= e.dirs && d.files.Keys <= e.files.Keys
  }

  /** `makedirs` and `open(..., "w")`, when they complete, keep files and
      directories apart and remove nothing. */
  lemma MakeDirsGrows(d: Disk, p: string)
    requires Disjoint(d)
    ensures var o := AfterMakeDirs(d, p);
      Disjoint(o.disk) && Grows(d, o.disk)
  {
  }

  lemma WriteGrows(d: Disk, target: string, parent: string, content: string)
    requires Disjoint(d)
    ensures var o := AfterWrite(d, target, parent, content);
      Disjoint(o.disk) && Grows(d, o.disk)
  {
  }

  lemma StepAtGrows(d: Disk, target: string, rel: string, content: string, overwrite: bool)
    requires Disjoint(d)
    ensures var o := StepAt(d, target, rel, content, overwrite);
      Disjoint(o.disk) && Grows(d, o.disk)
  {
    if EndsWithChar(rel, Sep) {
      MakeDirsGrows(d, target);
    } else {
      var parent := Dirname(target);
      var prep := if parent != "" && !Exists(d, parent) then AfterMakeDirs(d, parent) else Outcome(d, true);
      MakeDirsGrows(d, parent);
      WriteGrows(prep.disk, target, parent, content);
    }
  }

  /** One step keeps files and directories apart and removes nothing. */
  lemma StepGrows(d: Disk, base: string, rel: string, contents: map<string, string>, overwrite: bool)
    requires Disjoint(d)
    ensures var o := AfterStep(d, base, rel, contents, overwrite);
      Disjoint(o.disk) && Grows(d, o.disk)
  {
    StepAtGrows(d, Target(base, rel), rel, ContentFor(rel, contents), overwrite);
  }

  /** For a file entry, the file is written exactly when it was absent or
      `overwrite` is set, with the content `get_content_for` or the extension
      table gives; otherwise no file changes (fstree.py:109-117).  The target
      must not be its own parent, as a filesystem root is. */
  lemma WriteIffAbsentOrOverwrite(d: Disk, target: string, rel: string, content: string, overwrite: bool)
    requires !EndsWithChar(rel, Sep)
    requires Dirname(target) != target
    ensures var o := StepAt(d, target, rel, content, overwrite);
      && (Exists(d, target) && !overwrite ==> o.disk.files == d.files)
      && (o.ok && (!Exists(d, target) || overwrite) ==> o.disk.files == d.files[target := content])
  {
    var parent := Dirname(target);
    if parent != "" && !Exists(d, parent) {
      assert target !in Chain(parent) by {
        assert |parent| < |target|;
      }
    }
  }

  /** What one completed step leaves in place: a directory entry's whole chain
      is directories; a file entry's target exists, below an existing parent. */
  ghost predicate DoneAt(d: Disk, target: string, rel: string) {
    if EndsWithChar(rel, Sep) then Chain(target) <= d.dirs
    else
      var parent := Dirname(target);
      Exists(d, target) && (parent == "" || Exists(d, parent))
  }

  ghost predicate Done(d: Disk, base: string, rel: string) {
    DoneAt(d, Target(base, rel), rel)
  }

  lemma StepDone(d: Disk, base: string, rel: string, contents: map<string, string>, overwrite: bool)
    requires AfterStep(d, base, rel, contents, overwrite).ok
    ensures Done(AfterStep(d, base, rel, contents, overwrite).disk, base, rel)
  {
    var target := Target(base, rel);
    var content := ContentFor(rel, contents);
    assert AfterStep(d, base, rel, contents, overwrite) == StepAt(d, target, rel, content, overwrite);
  }

  lemma DonePersists(d: Disk, e: Disk, base: string, rel: string)
    requires Done(d, base, rel) && Grows(d, e)
    ensures Done(e, base, rel)
  {
    var target := Target(base, rel);
    assert DoneAt(d, target, rel);
  }

  /** A step whose work is already done, without `overwrite`, changes nothing:
      the directories exist, and an existing file is not rewritten. */
  lemma DoneStepAtIsNoOp(d: Disk, target: string, rel: string, content: string)
    requires Disjoint(d) && DoneAt(d, target, rel)
    ensures StepAt(d, target, rel, content, false) == Outcome(d, true)
  {
    if EndsWithChar(rel, Sep) {
      assert d.dirs + Chain(target) == d.dirs;
    }
  }

  lemma DoneStepIsNoOp(d: Disk, base: string, rel: string, contents: map<string, string>)
    requires Disjoint(d) && Done(d, base, rel)
    ensures AfterStep(d, base, rel, contents, false) == Outcome(d, true)
  {
    DoneStepAtIsNoOp(d, Target(base, rel), rel, ContentFor(rel, contents));
  }

  /** A completed build leaves every entry done and the disk grown. */
  lemma {:induction false} BuildDone(d: Disk, base: string, paths: seq<string>, contents: map<string, string>, overwrite: bool)
    requires Disjoint(d)
    requires AfterBuild(d, base, paths, contents, overwrite).ok
    ensures var e := AfterBuild(d, base, paths, contents, overwrite).disk;
      Disjoint(e) && Grows(d, e) && forall rel :: rel in paths ==> Done(e, base, rel)
    decreases |paths|
  {
    if paths != [] {
      var o := AfterStep(d, base, paths[0], contents, overwrite);
      StepGrows(d, base, paths[0], contents, overwrite);
      StepDone(d, base, paths[0], contents, overwrite);
      BuildDone(o.disk, base, paths[1..], contents, overwrite);
      var e := AfterBuild(d, base, paths, contents, overwrite).disk;
      assert e == AfterBuild(o.disk, base, paths[1..], contents, overwrite).disk;
      DonePersists(o.disk, e, base, paths[0]);
      forall rel | rel in paths ensures Done(e, base, rel) {
        if rel != paths[0] { assert rel in paths[1..]; }
      }
    }
  }

  /** Running a build on a disk where all its entries are done, without
      `overwrite`, changes nothing and raises nothing. */
  lemma {:induction false} DoneBuildIsNoOp(d: Disk, base: string, paths: seq<string>, contents: map<string, string>)
    requires Disjoint(d)
    requires forall rel :: rel in paths ==> Done(d, base, rel)
    ensures AfterBuild(d, base, paths, contents, false) == Outcome(d, true)
    decreases |paths|
  {
    if paths != [] {
      assert paths[0] in paths;
      DoneStepIsNoOp(d, base, paths[0], contents);
      forall rel | rel in paths[1..] ensures Done(d, base, rel) { assert rel in paths; }
      DoneBuildIsNoOp(d, base, paths[1..], contents);
    }
  }

  /** Idempotent build: after a build that completed, building the same paths
      again without `overwrite` (with any content map) completes and leaves
      the disk, file contents included, exactly as it was (fstree.py:109-111). */
  lemma BuildIdempotent(d: Disk, base: string, paths: seq<string>, contents: map<string, string>, overwrite: bool, contents2: map<string, string>)
    requires Disjoint(d)
    requires AfterBuild(d, base, paths, contents, overwrite).ok
    ensures var e := AfterBuild(d, base, paths, contents, overwrite).disk;
      AfterBuild(e, base, paths, contents2, false) == Outcome(e, true)
  {
    BuildDone(d, base, paths, contents, overwrite);
    var e := AfterBuild(d, base, paths, contents, overwrite).disk;
    DoneBuildIsNoOp(e, base, paths, contents2);
  }

  // ---- The disk as a mutable object ----

  class FileSystem {
    var files: map<string, string>
    var dirs: set<string>

    function Snapshot(): Disk
      reads this
    {
      Disk(files, dirs)
    }

    constructor (d: Disk)
      ensures Snapshot() == d
    {
      files := d.files;
      dirs := d.dirs;
    }

    /** `os.makedirs(p, exist_ok=True)`. */
    method MakeDirs(p: string) returns (ok: bool)
      modifies this
      ensures Outcome(Snapshot(), ok) == AfterMakeDirs(old(Snapshot()), p)
    {
      var chain := Chain(p);
      if chain !! files.Keys {
        dirs := dirs + chain;
        ok := true;
      } else {
        ok := false;
      }
    }

    /** Writing `content` to `target` in text mode. */
    method WriteFile(target: string, parent: string, content: string) returns (ok: bool)
      modifies this
      ensures Outcome(Snapshot(), ok) == AfterWrite(old(Snapshot()), target, parent, content)
    {
      if target in dirs || (parent != "" && parent in files) {
        ok := false;
      } else {
        files := files[target := content];
        ok := true;
      }
    }

    /** One iteration of the loop of `create_structure` (fstree.py:100-121). */
    method BuildEntry(base: string, rel: string, contents: map<string, string>, overwrite: bool) returns (ok: bool)
      modifies this
      ensures Outcome(Snapshot(), ok) == AfterStep(old(Snapshot()), base, rel, contents, overwrite)
    {
      var target := NormPath(PyJoin(base, [rel]));
      if EndsWithChar(rel, Sep) {
        ok := MakeDirs(target);
      } else {
        ok := BuildFile(target, rel, contents, overwrite);
      }
    }

    /** The file branch of the loop (fstree.py:105-121). */
    method BuildFile(target: string, rel: string, contents: map<string, string>, overwrite: bool) returns (ok: bool)
      requires !EndsWithChar(rel, Sep)
      modifies this
      ensures Outcome(Snapshot(), ok) == StepAt(old(Snapshot()), target, rel, ContentFor(rel, contents), overwrite)
    {
      var parent := Dirname(target);
      ghost var d0 := Snapshot();
      ghost var want := StepAt(d0, target, rel, ContentFor(rel, contents), overwrite);
      ok := true;
      if parent != "" && !(parent in files || parent in dirs) {
        ok := MakeDirs(parent);
        assert Outcome(Snapshot(), ok) == AfterMakeDirs(d0, parent);
      } else {
        assert Snapshot() == d0;
      }
      ghost var prep := Outcome(Snapshot(), ok);
      assert !prep.ok ==> want == prep;
      if ok {
        var present := target in files || target in dirs;
        var shouldWrite := !present || overwrite;
        if shouldWrite {
          var content := ContentFor(rel, contents);
          ok := WriteFile(target, parent, content);
          assert want == AfterWrite(prep.disk, target, parent, content);
        } else {
          assert want == prep;
        }
      }
    }

    /** `create_structure(paths, base_dir, contents, overwrite=overwrite)`
        (fstree.py:91-121); `ok` is false when an operation raised. */
    method CreateStructure(paths: seq<string>, base: string, contents: map<string, string>, overwrite: bool) returns (ok: bool)
      modifies this
      ensures Outcome(Snapshot(), ok) == AfterBuild(old(Snapshot()), base, paths, contents, overwrite)
    {
      ok := true;
      var i := 0;
      while i < |paths|
        invariant 0 <= i <= |paths|
        invariant ok
        invariant AfterBuild(old(Snapshot()), base, paths, contents, overwrite) ==
                  AfterBuild(Snapshot(), base, paths[i..], contents, overwrite)
      {
        ghost var before := Snapshot();
        AfterBuildAt(before, base, paths, i, contents, overwrite);
        ok := BuildEntry(base, paths[i], contents, overwrite);
        if !ok {
          return;
        }
        i := i + 1;
      }
    }
  }
}
