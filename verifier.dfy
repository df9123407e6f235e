/**
 * `test_process` (fstree.py:185-229): checking a build against its input tree
 * file, and a dump against the directory it came from. The disk is a
 * `Builder.Disk` value, and the paths `os.walk` finds in dump mode are given
 * as a list.
 */
module Verifier {
  import opened Wrappers
  import opened PyStr
  import opened PathModel
  import opened TreeParser
  import opened TreeDump
  import opened RoundTrip
  import opened Builder

  // ---- Dump mode: comparing two path lists ----

  /** `[p for p in xs if p not in ys]`, in the order of `xs`. */
  function NotIn(xs: seq<string>, ys: seq<string>): (r: seq<string>)
    ensures forall p :: p in r <==> p in xs && p !in ys
    ensures |r| <= |xs|
  {
    if xs == [] then []
    else (if xs[0] in ys then [] else [xs[0]]) + NotIn(xs[1..], ys)
  }

  /** The filter keeps order: it distributes over concatenation. */
  lemma {:induction false} NotInAppend(xs: seq<string>, zs: seq<string>, ys: seq<string>)
    ensures NotIn(xs + zs, ys) == NotIn(xs, ys) + NotIn(zs, ys)
    decreases |xs|
  {
    if xs != [] {
      assert (xs + zs)[0] == xs[0] && (xs + zs)[1..] == xs[1..] + zs;
      NotInAppend(xs[1..], zs, ys);
    } else {
      assert xs + zs == zs;
    }
  }

  /** The two lists the dump check reports (fstree.py:211-212). */
  datatype DumpReport = DumpReport(missingInFile: seq<string>, extraInFile: seq<string>)

  function DumpCompare(actual: seq<string>, generated: seq<string>): (r: DumpReport)
    ensures forall p :: p in r.missingInFile <==> p in actual && p !in generated
    ensures forall p :: p in r.extraInFile <==> p in generated && p !in actual
  {
    DumpReport(NotIn(actual, generated), NotIn(generated, actual))
  }

  /** The dump check passes exactly when both lists hold the same paths,
      whatever their order and repetitions. */
  lemma DumpComparePasses(actual: seq<string>, generated: seq<string>)
    ensures var r := DumpCompare(actual, generated);
      r.missingInFile == [] && r.extraInFile == [] <==> forall p :: p in actual <==> p in generated
  {
    var r := DumpCompare(actual, generated);
    if r.missingInFile != [] {
      assert r.missingInFile[0] in r.missingInFile;
    }
    if r.extraInFile != [] {
      assert r.extraInFile[0] in r.extraInFile;
    }
  }

  /** Dump mode of `test_process`: parse the generated file and compare its
      paths with the ones found on disk (fstree.py:199-225). */
  method TestDump(actual: seq<string>, generatedLines: seq<string>) returns (ok: bool)
    ensures ok <==> forall p :: p in actual <==> p in Parse(generatedLines).paths
  {
    var generated, _ := ParseTreeFile(generatedLines);
    var missing := NotIn(actual, generated);
    var extra := NotIn(generated, actual);
    DumpComparePasses(actual, generated);
    ok := missing == [] && extra == [];
  }

  /** Every path the parser emits from a dump starts with the root line's
      name, while `os.path.relpath` gives paths below the root without it: so
      unless some path on disk starts with the root's name, every parsed path,
      the root line first, is reported as extra and the dump check fails. */
  lemma DumpCheckReportsEveryParsedPath(t: Node, opts: DumpOptions, actual: seq<string>)
    requires t.Dir? && PlainName(t.name)
    requires forall c :: c in t.children ==> RootChildReadable(c, opts)
    requires forall p :: p in actual ==> !(t.name + [Sep] <= p)
    ensures var generated := Parse(DumpLines(t, opts)).paths;
      && generated != [] && generated[0] == t.name + [Sep]
      && DumpCompare(actual, generated).extraInFile == generated
  {
    DumpParseRoundTrip(t, opts);
    ParsedPathsUnderRoot(t, opts);
    HeadOfCons(t.name + [Sep], TreePaths([t.name], t, 0, opts));
    PrefixedAllExtra(Parse(DumpLines(t, opts)).paths, t.name + [Sep], actual);
  }

  lemma HeadOfCons(h: string, rest: seq<string>)
    ensures ([h] + rest)[0] == h
  {
  }

  /** Paths that all start with `root`, compared with paths none of which does,
      are all extra. */
  lemma PrefixedAllExtra(generated: seq<string>, root: string, actual: seq<string>)
    requires forall p :: p in generated ==> root <= p
    requires forall p :: p in actual ==> !(root <= p)
    ensures DumpCompare(actual, generated).extraInFile == generated
  {
    NotInAll(generated, actual);
  }

  lemma {:induction false} NotInAll(xs: seq<string>, ys: seq<string>)
    requires forall p :: p in xs ==> p !in ys
    ensures NotIn(xs, ys) == xs
    decreases |xs|
  {
    if xs != [] {
      assert xs[0] in xs;
      forall p | p in xs[1..] ensures p !in ys { assert p in xs; }
      NotInAll(xs[1..], ys);
    }
  }

  // ---- Build mode: every parsed path must exist ----

  /** `os.path.exists(p)` on the disk: a path written with a trailing
      separator only exists as a directory. */
  predicate PathExists(d: Disk, p: string) {
    var n := NormPath(p);
    if EndsWithChar(p, Sep) then n in d.dirs else Exists(d, n)
  }

  /** The paths the build check reports as missing, in order (fstree.py:191-197). */
  function MissingOnDisk(d: Disk, salida: string, paths: seq<string>): (r: seq<string>)
    ensures forall p :: p in r <==> exists rel :: rel in paths && p == PyJoin(salida, [rel]) && !PathExists(d, p)
    decreases |paths|
  {
    if paths == [] then []
    else
      var last := paths[|paths| - 1];
      var p := PyJoin(salida, [last]);
      var front := paths[..|paths| - 1];
      assert forall rel :: rel in paths <==> rel in front || rel == last;
      MissingOnDisk(d, salida, front) + (if PathExists(d, p) then [] else [p])
  }

  /** The build-mode loop of `test_process`: each parsed path joined under
      `salida` is looked up, and the missing ones collected. */
  method BuildCheck(d: Disk, salida: string, paths: seq<string>) returns (missing: seq<string>)
    ensures missing == MissingOnDisk(d, salida, paths)
  {
    missing := [];
    for i := 0 to |paths|
      invariant missing == MissingOnDisk(d, salida, paths[..i])
    {
      var pathCheck := PyJoin(salida, [paths[i]]);
      assert paths[..i + 1][..i] == paths[..i];
      if !PathExists(d, pathCheck) {
        missing := missing + [pathCheck];
      }
    }
    assert paths[..|paths|] == paths;
  }

  /** Build mode of `test_process`: parse the tree file and check each path. */
  method TestBuild(d: Disk, entradaLines: seq<string>, salida: string) returns (ok: bool)
    ensures ok <==> forall rel :: rel in Parse(entradaLines).paths ==> PathExists(d, PyJoin(salida, [rel]))
  {
    var paths, _ := ParseTreeFile(entradaLines);
    var missing := BuildCheck(d, salida, paths);
    ok := missing == [];
    if !ok {
      assert missing[0] in missing;
    }
  }

  /** The parser never emits an empty path. */
  lemma {:induction false} RunPathsNonEmpty(s: State, lines: seq<string>)
    requires forall p :: p in s.paths ==> p != ""
    ensures forall p :: p in Run(s, lines).paths ==> p != ""
    decreases |lines|
  {
    if lines != [] {
      var t := Step(s, lines[0]);
      StepPathsNonEmpty(s, lines[0]);
      RunPathsNonEmpty(t, lines[1..]);
    }
  }

  lemma StepPathsNonEmpty(s: State, raw: string)
    requires forall p :: p in s.paths ==> p != ""
    ensures forall p :: p in Step(s, raw).paths ==> p != ""
  {
    var line := Chomp(raw);
    if !IsOpen(line) && !IsClose(line) && !s.collecting {
      var nc := StripComment(line);
      if Strip(nc) != "" {
        EntryStepPathsNonEmpty(s, nc);
      }
    }
  }

  lemma EntryStepPathsNonEmpty(s: State, nc: string)
    requires forall p :: p in s.paths ==> p != ""
    ensures forall p :: p in EntryStep(s, nc).paths ==> p != ""
  {
  }

  /** Joining a non-empty relative path keeps its trailing separator or its absence. */
  lemma JoinEnd(base: string, rel: string)
    requires rel != ""
    ensures EndsWithChar(PyJoin(base, [rel]), Sep) <==> EndsWithChar(rel, Sep)
  {
    var next := if rel[0] == Sep then rel
                else if base == [] || base[|base| - 1] == Sep then base + rel
                else base + [Sep] + rel;
    assert PyJoin(base, [rel]) == PyJoin(next, []) == next;
  }

  /** A path whose step completed exists where the build check looks for it. */
  lemma DoneExists(e: Disk, base: string, rel: string)
    requires rel != "" && Done(e, base, rel)
    ensures PathExists(e, PyJoin(base, [rel]))
  {
    JoinEnd(base, rel);
  }

  /** Building a tree file's paths into `base` and then running the build check
      on the same file with `salida` = `base` finds nothing missing. */
  lemma BuildThenTestBuildPasses(lines: seq<string>, d: Disk, base: string, overwrite: bool)
    requires Disjoint(d)
    requires AfterBuild(d, base, Parse(lines).paths, Parse(lines).contents, overwrite).ok
    ensures var e := AfterBuild(d, base, Parse(lines).paths, Parse(lines).contents, overwrite).disk;
      forall rel :: rel in Parse(lines).paths ==> PathExists(e, PyJoin(base, [rel]))
  {
    var st := Parse(lines);
    BuildDone(d, base, st.paths, st.contents, overwrite);
    RunPathsNonEmpty(Init, lines);
    var e := AfterBuild(d, base, st.paths, st.contents, overwrite).disk;
    forall rel | rel in st.paths ensures PathExists(e, PyJoin(base, [rel])) {
      DoneExists(e, base, rel);
    }
  }
}
