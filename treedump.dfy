/**
 * The tree-text serializer `dump_structure` with its inner `list_entries` and
 * `walk` (fstree.py:123-168), over an in-memory directory tree instead of the
 * disk.  `walk` is a recursive method writing lines to an output stream; it
 * is proved to write exactly `WalkLines`, the specification of the format.
 */
module TreeDump {
  import opened Wrappers
  import opened PyStr
  import opened NameOrder
  import opened TreeParser

  /** A directory tree as the dumper sees it.  A directory that cannot be
      listed yields no entries (fstree.py:126-129); a file whose text cannot
      be read as UTF-8 has no text (fstree.py:156-166). */
  datatype Node =
    | Dir(name: string, children: seq<Node>, listable: bool)
    | File(name: string, text: Option<string>)

  /** The resolved configuration: excluded names, `with_content`, `dirs_only`, `max_level`. */
  datatype DumpOptions = DumpOptions(excludes: set<string>, withContent: bool, dirsOnly: bool, maxLevel: Option<int>)

  const Bar: char := '\U{2502}'   // the vertical continuation glyph
  const LastConnector: string := [Elbow, Dash, Dash, ' ']
  const MidConnector: string := [Tee, Dash, Dash, ' ']
  const LastContinuation: string := "    "
  const MidContinuation: string := [Bar, ' ', ' ', ' ']

  function Connector(isLast: bool): string {
    if isLast then LastConnector else MidConnector
  }

  function Continuation(isLast: bool): string {
    if isLast then LastContinuation else MidContinuation
  }

  // ---- list_entries ----

  ghost predicate SortedByName(s: seq<Node>) {
    forall i, j :: 0 <= i < j < |s| ==> LexLe(s[i].name, s[j].name)
  }

  lemma ConsSorted(x: Node, s: seq<Node>)
    requires SortedByName(s)
    requires forall k :: 0 <= k < |s| ==> LexLe(x.name, s[k].name)
    ensures SortedByName([x] + s)
  {
    var r := [x] + s;
    forall i, j | 0 <= i < j < |r| ensures LexLe(r[i].name, r[j].name) {
      assert r[j] == s[j - 1];
      if i > 0 { assert r[i] == s[i - 1]; }
    }
  }

  /** Inserts `x` before the first entry whose name is not below its own. */
  function InsertByName(x: Node, s: seq<Node>): (r: seq<Node>)
    requires SortedByName(s)
    ensures multiset(r) == multiset(s) + multiset{x}
    ensures SortedByName(r)
  {
    if s == [] then [x]
    else if LexLe(x.name, s[0].name) then
      forall k | 0 <= k < |s| ensures LexLe(x.name, s[k].name) {
        if k > 0 { LexLeTrans(x.name, s[0].name, s[k].name); }
      }
      ConsSorted(x, s);
      [x] + s
    else
      var tail := InsertByName(x, s[1..]);
      assert s == [s[0]] + s[1..];
      LexLeTotal(x.name, s[0].name);
      HeadBelowTail(x, s, tail);
      ConsSorted(s[0], tail);
      [s[0]] + tail
  }

  /** The head of a sorted list is below everything in its tail with an
      entry it is below added. */
  lemma HeadBelowTail(x: Node, s: seq<Node>, tail: seq<Node>)
    requires SortedByName(s) && s != [] && LexLe(s[0].name, x.name)
    requires multiset(tail) == multiset(s[1..]) + multiset{x}
    ensures forall k :: 0 <= k < |tail| ==> LexLe(s[0].name, tail[k].name)
  {
    forall k | 0 <= k < |tail| ensures LexLe(s[0].name, tail[k].name) {
      var y := tail[k];
      assert y in multiset(tail);
      if y != x {
        assert y in multiset(s[1..]);
        var m :| 0 <= m < |s[1..]| && s[1..][m] == y;
        assert s[m + 1] == y;
      }
    }
  }

  /** `sorted(...)` on entries, keyed by name. */
  function SortByName(s: seq<Node>): (r: seq<Node>)
    ensures multiset(r) == multiset(s)
    ensures SortedByName(r)
  {
    if s == [] then []
    else
      assert s == [s[0]] + s[1..];
      InsertByName(s[0], SortByName(s[1..]))
  }

  /** `[e for e in entries if e not in excludes]`. */
  function WithoutExcluded(es: seq<Node>, excludes: set<string>): (r: seq<Node>)
    ensures forall e :: e in r <==> e in es && e.name !in excludes
  {
    if es == [] then []
    else if es[0].name in excludes then WithoutExcluded(es[1..], excludes)
    else [es[0]] + WithoutExcluded(es[1..], excludes)
  }

  /** `list_entries` (fstree.py:125-129): the names not excluded, sorted; nothing
      when the directory cannot be listed. */
  function ListEntries(d: Node, excludes: set<string>): (r: seq<Node>)
    ensures SortedByName(r)
    ensures forall e :: e in r <==> d.Dir? && d.listable && e in d.children && e.name !in excludes
    ensures d.Dir? && d.listable ==> multiset(r) == multiset(WithoutExcluded(d.children, excludes))
  {
    if d.Dir? && d.listable then
      var r := SortByName(WithoutExcluded(d.children, excludes));
      assert forall e :: e in r <==> e in multiset(r);
      r
    else []
  }

  /** `[e for e in entries if os.path.isdir(...)]` (fstree.py:141-142). */
  function OnlyDirs(es: seq<Node>): (r: seq<Node>)
    ensures forall e :: e in r <==> e in es && e.Dir?
    ensures SortedByName(es) ==> SortedByName(r)
  {
    if es == [] then []
    else
      var tail := OnlyDirs(es[1..]);
      if es[0].Dir? then
        SortedKeepsHead(es, tail);
        [es[0]] + tail
      else
        SortedTail(es);
        tail
  }

  lemma SortedTail(es: seq<Node>)
    requires es != []
    ensures SortedByName(es) ==> SortedByName(es[1..])
  {
    if SortedByName(es) {
      forall i, j | 0 <= i < j < |es[1..]| ensures LexLe(es[1..][i].name, es[1..][j].name) {
        assert es[1..][i] == es[i + 1] && es[1..][j] == es[j + 1];
      }
    }
  }

  /** Keeping the head of a sorted list before entries drawn, sorted, from its
      tail gives a sorted list. */
  lemma SortedKeepsHead(es: seq<Node>, t: seq<Node>)
    requires es != [] && forall e :: e in t ==> e in es[1..]
    requires SortedByName(es[1..]) ==> SortedByName(t)
    ensures SortedByName(es) ==> SortedByName([es[0]] + t)
  {
    if SortedByName(es) {
      SortedTail(es);
      HeadBelowAll(es, t);
      ConsSorted(es[0], t);
    }
  }

  /** In a sorted list, the head is below every entry of the tail, so below
      every entry of a list drawn from the tail. */
  lemma HeadBelowAll(es: seq<Node>, t: seq<Node>)
    requires SortedByName(es) && es != []
    requires forall e :: e in t ==> e in es[1..]
    ensures forall k :: 0 <= k < |t| ==> LexLe(es[0].name, t[k].name)
  {
    forall k | 0 <= k < |t| ensures LexLe(es[0].name, t[k].name) {
      assert t[k] in es[1..];
      var m :| 0 <= m < |es[1..]| && es[1..][m] == t[k];
      assert es[m + 1] == t[k];
    }
  }

  /** The entries `walk` emits for a directory (fstree.py:140-142): the listing,
      sorted by name, of the children not excluded, only the directories among
      them under `dirs_only`; nothing for a directory that cannot be listed. */
  function Entries(d: Node, opts: DumpOptions): (r: seq<Node>)
    ensures SortedByName(r)
    ensures forall e :: e in r <==>
      d.Dir? && d.listable && e in d.children && e.name !in opts.excludes && (opts.dirsOnly ==> e.Dir?)
  {
    var es := ListEntries(d, opts.excludes);
    if opts.dirsOnly then OnlyDirs(es) else es
  }

  // ---- walk ----

  /** `max_level is not None and current_level >= max_level` (fstree.py:138). */
  predicate Cut(opts: DumpOptions, level: int) {
    opts.maxLevel.Some? && level >= opts.maxLevel.value
  }

  /** The name as written: directories get a trailing separator (fstree.py:148). */
  function NameOut(e: Node): string {
    if e.Dir? then e.name + "/" else e.name
  }

  /** The text of a content block's lines, if the file gets one: only for a
      readable file, with content wanted and not `dirs_only`, whose text
      without trailing newlines is not empty (fstree.py:155-163). */
  function BlockSource(e: Node, opts: DumpOptions): Option<string> {
    if e.File? && opts.withContent && !opts.dirsOnly && e.text.Some? then
      var c := RStripChar(e.text.value, '\n');
      if c != "" then Some(c) else None
    else None
  }

  /** Each line of a block, indented by the prefix plus one unit: every line
      starts with that indentation, and taking it off gives the pieces back. */
  function Indented(prefix: string, pieces: seq<string>): (r: seq<string>)
    ensures |r| == |pieces|
    ensures forall k :: 0 <= k < |r| ==> prefix + Indent <= r[k] && r[k][|prefix| + 4..] == pieces[k]
  {
    seq(|pieces|, k requires 0 <= k < |pieces| => prefix + Indent + pieces[k])
  }

  /** The content block written under a file line (fstree.py:155-166). */
  function ContentBlock(e: Node, prefix: string, opts: DumpOptions): seq<string> {
    match BlockSource(e, opts)
    case None => []
    case Some(c) => [prefix + Indent + OpenMark] + Indented(prefix, Split(c, '\n')) + [prefix + Indent + CloseMark]
  }

  /** The lines for one entry: its own line, then its subtree or its content block
      (fstree.py:145-166). */
  function EntryLines(e: Node, isLast: bool, prefix: string, level: int, opts: DumpOptions): seq<string>
    decreases e, 2
  {
    [prefix + Connector(isLast) + NameOut(e)] +
    (if e.Dir? then WalkLines(e, prefix + Continuation(isLast), level + 1, opts)
     else ContentBlock(e, prefix, opts))
  }

  /** Everything `walk(dir, prefix, level)` writes (fstree.py:137-166). */
  function WalkLines(d: Node, prefix: string, level: int, opts: DumpOptions): seq<string>
    decreases d, 1
  {
    if Cut(opts, level) then [] else EntriesLines(d, Entries(d, opts), 0, prefix, level, opts)
  }

  /** The lines for entries `i..` of a directory's listing. */
  function EntriesLines(d: Node, es: seq<Node>, i: nat, prefix: string, level: int, opts: DumpOptions): seq<string>
    requires i <= |es|
    requires forall e :: e in es ==> d.Dir? && e in d.children
    decreases d, 0, |es| - i
  {
    if i == |es| then []
    else
      assert es[i] in es;
      assert es[i] < d by { var k :| 0 <= k < |d.children| && d.children[k] == es[i]; }
      EntryLines(es[i], i == |es| - 1, prefix, level, opts) + EntriesLines(d, es, i + 1, prefix, level, opts)
  }

  /** The whole output of `dump_structure`: the root line, then the walk (fstree.py:131-168). */
  function DumpLines(root: Node, opts: DumpOptions): seq<string> {
    [root.name + "/"] + WalkLines(root, "", 0, opts)
  }

  // ---- The output stream and the recursive walk ----

  /** The output file, as the sequence of lines written to it. */
  class LineWriter {
    var lines: seq<string>

    constructor ()
      ensures lines == []
    {
      lines := [];
    }

    method Write(line: string)
      modifies this
      ensures lines == old(lines) + [line]
    {
      lines := lines + [line];
    }
  }

  /** Writes a file's content block, if it gets one (fstree.py:155-166). */
  method WriteContent(out: LineWriter, e: Node, prefix: string, opts: DumpOptions)
    modifies out
    ensures out.lines == old(out.lines) + ContentBlock(e, prefix, opts)
  {
    if e.File? && opts.withContent && !opts.dirsOnly && e.text.Some? {
      var content := RStripChar(e.text.value, '\n');
      if content != "" {
        ghost var start := out.lines;
        out.Write(prefix + Indent + OpenMark);
        var pieces := Split(content, '\n');
        for k := 0 to |pieces|
          invariant out.lines == start + [prefix + Indent + OpenMark] + Indented(prefix, pieces[..k])
        {
          IndentedSnoc(prefix, pieces, k);
          out.Write(prefix + Indent + pieces[k]);
        }
        assert pieces[..|pieces|] == pieces;
        out.Write(prefix + Indent + CloseMark);
        BlockAppended(start, prefix + Indent + OpenMark, Indented(prefix, pieces), prefix + Indent + CloseMark);
      }
    }
  }

  lemma IndentedSnoc(prefix: string, pieces: seq<string>, k: nat)
    requires k < |pieces|
    ensures Indented(prefix, pieces[..k + 1]) == Indented(prefix, pieces[..k]) + [prefix + Indent + pieces[k]]
  {
  }

  lemma BlockAppended(start: seq<string>, open: string, mid: seq<string>, close: string)
    ensures start + [open] + mid + [close] == start + ([open] + mid + [close])
  {
  }

  lemma ConcatAssoc<T>(a: seq<T>, b: seq<T>, c: seq<T>)
    ensures (a + b) + c == a + (b + c)
  {
  }

  /** Writes one entry's line, then its subtree or content block (fstree.py:144-166). */
  method WriteEntry(out: LineWriter, entry: Node, isLast: bool, prefix: string, level: int, opts: DumpOptions)
    modifies out
    ensures out.lines == old(out.lines) + EntryLines(entry, isLast, prefix, level, opts)
    decreases entry, 2
  {
    var connector := if isLast then LastConnector else MidConnector;
    assert connector == Connector(isLast);
    var line := prefix + connector + NameOut(entry);
    ghost var start := out.lines;
    out.Write(line);
    ghost var tail: seq<string>;
    if entry.Dir? {
      var extension := if isLast then LastContinuation else MidContinuation;
      assert extension == Continuation(isLast);
      tail := WalkLines(entry, prefix + extension, level + 1, opts);
      Walk(out, entry, prefix + extension, level + 1, opts);
    } else {
      tail := ContentBlock(entry, prefix, opts);
      WriteContent(out, entry, prefix, opts);
    }
    assert out.lines == start + [line] + tail;
    assert EntryLines(entry, isLast, prefix, level, opts) == [line] + tail;
    ConcatAssoc(start, [line], tail);
  }

  /** Entry `i` of a listing is a child of the directory, and its lines come
      first among those of entries `i..`. */
  lemma EntriesLinesAt(d: Node, es: seq<Node>, i: nat, prefix: string, level: int, opts: DumpOptions)
    requires i < |es|
    requires forall e :: e in es ==> d.Dir? && e in d.children
    ensures es[i] < d
    ensures EntriesLines(d, es, i, prefix, level, opts)
      == EntryLines(es[i], i == |es| - 1, prefix, level, opts) + EntriesLines(d, es, i + 1, prefix, level, opts)
  {
    assert es[i] in es;
    var k :| 0 <= k < |d.children| && d.children[k] == es[i];
  }

  /** `walk(dir_path, prefix, current_level)` (fstree.py:137-166). */
  method Walk(out: LineWriter, d: Node, prefix: string, level: int, opts: DumpOptions)
    modifies out
    ensures out.lines == old(out.lines) + WalkLines(d, prefix, level, opts)
    decreases d, 1
  {
    if opts.maxLevel.Some? && level >= opts.maxLevel.value {
      return;
    }
    var entries := ListEntries(d, opts.excludes);
    if opts.dirsOnly {
      entries := OnlyDirs(entries);
    }
    assert entries == Entries(d, opts);
    var total := |entries|;
    for idx := 0 to total
      invariant old(out.lines) + EntriesLines(d, entries, 0, prefix, level, opts)
                == out.lines + EntriesLines(d, entries, idx, prefix, level, opts)
    {
      var entry := entries[idx];
      EntriesLinesAt(d, entries, idx, prefix, level, opts);
      ghost var start := out.lines;
      ghost var here := EntryLines(entry, idx == total - 1, prefix, level, opts);
      ghost var rest := EntriesLines(d, entries, idx + 1, prefix, level, opts);
      WriteEntry(out, entry, idx == total - 1, prefix, level, opts);
      ConcatAssoc(start, here, rest);
    }
  }

  /** `dump_structure` (fstree.py:123-168): the lines of the output file. */
  method DumpStructure(root: Node, opts: DumpOptions) returns (text: seq<string>)
    ensures text == DumpLines(root, opts)
  {
    var out := new LineWriter();
    out.Write(root.name + "/");
    Walk(out, root, "", 0, opts);
    text := out.lines;
  }

  // ---- Properties of the format ----

  /** The lines strictly between the two markers, with the indentation removed. */
  function BlockBody(b: seq<string>, width: nat): seq<string>
    requires |b| >= 2
    requires forall k :: 1 <= k < |b| - 1 ==> width <= |b[k]|
  {
    seq(|b| - 2, k requires 0 <= k < |b| - 2 => b[k + 1][width..])
  }

  /** A content block is written exactly for a readable file with something
      besides newlines in it, when content is wanted and not `dirs_only`; it is
      framed by the two markers at one indentation unit past the prefix, and its
      inner lines, unindented and rejoined, give back the text without its
      trailing newlines (fstree.py:155-166). */
  lemma ContentBlockSpec(e: Node, prefix: string, opts: DumpOptions)
    ensures ContentBlock(e, prefix, opts) != [] <==>
      e.File? && opts.withContent && !opts.dirsOnly && e.text.Some? && RStripChar(e.text.value, '\n') != ""
    ensures var b := ContentBlock(e, prefix, opts);
      b != [] ==>
        |b| >= 3 && b[0] == prefix + Indent + OpenMark && b[|b| - 1] == prefix + Indent + CloseMark &&
        (forall k :: 1 <= k < |b| - 1 ==> |prefix| + 4 <= |b[k]| && b[k][..|prefix| + 4] == prefix + Indent) &&
        Join(BlockBody(b, |prefix| + 4), "\n") == RStripChar(e.text.value, '\n')
  {
    var b := ContentBlock(e, prefix, opts);
    if b != [] {
      var c := RStripChar(e.text.value, '\n');
      var pieces := Split(c, '\n');
      var mid := Indented(prefix, pieces);
      assert b == [prefix + Indent + OpenMark] + mid + [prefix + Indent + CloseMark];
      forall k | 1 <= k < |b| - 1
        ensures |prefix| + 4 <= |b[k]| && b[k][..|prefix| + 4] == prefix + Indent
        ensures b[k][|prefix| + 4..] == pieces[k - 1]
      {
        assert b[k] == mid[k - 1];
      }
      assert BlockBody(b, |prefix| + 4) == pieces;
      JoinSplit(c, '\n');
    }
  }

  /** Every line `walk` writes begins with the prefix it was given. */
  lemma {:induction false} WalkLinesPrefixed(d: Node, prefix: string, level: int, opts: DumpOptions)
    ensures forall line :: line in WalkLines(d, prefix, level, opts) ==> prefix <= line
    decreases d, 1
  {
    if !Cut(opts, level) {
      EntriesLinesPrefixed(d, Entries(d, opts), 0, prefix, level, opts);
    }
  }

  lemma {:induction false} EntriesLinesPrefixed(d: Node, es: seq<Node>, i: nat, prefix: string, level: int, opts: DumpOptions)
    requires i <= |es|
    requires forall e :: e in es ==> d.Dir? && e in d.children
    ensures forall line :: line in EntriesLines(d, es, i, prefix, level, opts) ==> prefix <= line
    decreases d, 0, |es| - i
  {
    if i < |es| {
      assert es[i] in es;
      assert es[i] < d by { var k :| 0 <= k < |d.children| && d.children[k] == es[i]; }
      EntryLinesPrefixed(es[i], i == |es| - 1, prefix, level, opts);
      EntriesLinesPrefixed(d, es, i + 1, prefix, level, opts);
    }
  }

  lemma {:induction false} EntryLinesPrefixed(e: Node, isLast: bool, prefix: string, level: int, opts: DumpOptions)
    ensures forall line :: line in EntryLines(e, isLast, prefix, level, opts) ==> prefix <= line
    decreases e, 2
  {
    var head := prefix + Connector(isLast) + NameOut(e);
    assert prefix <= head by { assert head[..|prefix|] == prefix; }
    if e.Dir? {
      var ext := prefix + Continuation(isLast);
      WalkLinesPrefixed(e, ext, level + 1, opts);
      PrefixOfExtended(prefix, ext[|prefix|..], WalkLines(e, ext, level + 1, opts));
    } else {
      ContentBlockPrefixed(e, prefix, opts);
    }
  }

  lemma PrefixOfExtended(prefix: string, more: string, ls: seq<string>)
    requires forall line :: line in ls ==> prefix + more <= line
    ensures forall line :: line in ls ==> prefix <= line
  {
    forall line | line in ls ensures prefix <= line {
      assert line[..|prefix|] == (prefix + more)[..|prefix|] == prefix;
    }
  }

  lemma ContentBlockPrefixed(e: Node, prefix: string, opts: DumpOptions)
    ensures forall line :: line in ContentBlock(e, prefix, opts) ==> prefix <= line
  {
    var b := ContentBlock(e, prefix, opts);
    ContentBlockSpec(e, prefix, opts);
    forall line | line in b ensures prefix <= line {
      var k :| 0 <= k < |b| && b[k] == line;
    }
  }

  /** An entry's own line carries `└── ` when it is the last of its listing and
      `├── ` otherwise; everything listed below a directory is indented by the
      matching continuation, `"    "` or `"│   "` (fstree.py:146-154). */
  lemma DirEntryShape(e: Node, isLast: bool, prefix: string, level: int, opts: DumpOptions)
    requires e.Dir?
    ensures var ls := EntryLines(e, isLast, prefix, level, opts);
      && ls[0] == prefix + (if isLast then LastConnector else MidConnector) + e.name + "/"
      && forall k :: 1 <= k < |ls| ==> prefix + (if isLast then LastContinuation else MidContinuation) <= ls[k]
  {
    var ls := EntryLines(e, isLast, prefix, level, opts);
    var ext := prefix + Continuation(isLast);
    var sub := WalkLines(e, ext, level + 1, opts);
    assert ls == [prefix + Connector(isLast) + NameOut(e)] + sub;
    WalkLinesPrefixed(e, ext, level + 1, opts);
    forall k | 1 <= k < |ls| ensures ext <= ls[k] {
      assert ls[k] == sub[k - 1];
      assert sub[k - 1] in sub;
    }
  }

  /** From `max_level` on, `walk` writes nothing; with `max_level` 0 the dump is
      the root line alone (fstree.py:138-139). */
  lemma MaxLevelCuts(root: Node, d: Node, prefix: string, level: int, opts: DumpOptions)
    requires opts.maxLevel.Some? && level >= opts.maxLevel.value
    ensures WalkLines(d, prefix, level, opts) == []
    ensures opts.maxLevel.value <= 0 ==> DumpLines(root, opts) == [root.name + "/"]
  {
    assert opts.maxLevel.value <= 0 ==> Cut(opts, 0);
  }
}
