/**
 * What survives a dump followed by a parse.  The serializer (`dump_structure`,
 * fstree.py:123-168) and the parser (`parse_tree_file`, fstree.py:34-89) are
 * separate code; this module proves that parsing a dump lists exactly the
 * entries the dump walked, each prefixed by the root's name, and that a
 * root-level file's content block comes back as its text plus one newline.
 */
module RoundTrip {
  import opened Wrappers
  import opened PyStr
  import opened PathModel
  import opened TreeParser
  import opened TreeDump

  /** A name the dumper writes so that the parser reads it back unchanged. */
  predicate PlainName(n: string) {
    && SimpleName(n)
    && !IsSpace(n[0]) && !IsSpace(n[|n| - 1])
    && '#' !in n && Tee !in n && Elbow !in n && '\n' !in n
  }

  /** Every name in the tree is plain. */
  ghost predicate PlainTree(d: Node) {
    PlainName(d.name) && (d.Dir? ==> forall c :: c in d.children ==> PlainTree(c))
  }

  /** No file in the tree gets a content block under these options. */
  ghost predicate Quiet(d: Node, opts: DumpOptions) {
    (d.File? ==> BlockSource(d, opts).None?) && (d.Dir? ==> forall c :: c in d.children ==> Quiet(c, opts))
  }

  /** No line of the text is itself a sentinel once stripped. */
  ghost predicate NoSentinelLines(text: string) {
    forall piece :: piece in Split(text, '\n') ==> Strip(piece) != OpenMark && Strip(piece) != CloseMark
  }

  // ---- The reference listing ----

  /** The paths the walk lists below `d`, as `/`-joined component paths
      under the ancestors `A`, directories marked by a trailing separator. */
  function TreePaths(A: seq<string>, d: Node, level: int, opts: DumpOptions): seq<string>
    decreases d, 1
  {
    if Cut(opts, level) then [] else EntriesPaths(A, d, Entries(d, opts), 0, level, opts)
  }

  function EntriesPaths(A: seq<string>, d: Node, es: seq<Node>, i: nat, level: int, opts: DumpOptions): seq<string>
    requires i <= |es|
    requires forall e :: e in es ==> d.Dir? && e in d.children
    decreases d, 0, |es| - i
  {
    if i == |es| then []
    else
      assert es[i] in es;
      assert es[i] < d by { var k :| 0 <= k < |d.children| && d.children[k] == es[i]; }
      EntryPaths(A, es[i], level, opts) + EntriesPaths(A, d, es, i + 1, level, opts)
  }

  function EntryPaths(A: seq<string>, e: Node, level: int, opts: DumpOptions): seq<string>
    decreases e, 2
  {
    [ListedPath(A, e)] + (if e.Dir? then TreePaths(A + [e.name], e, level + 1, opts) else [])
  }

  /** An entry's path under its ancestors, with a trailing separator for a directory. */
  function ListedPath(A: seq<string>, e: Node): string {
    if e.Dir? then JoinPath(A + [e.name]) + [Sep] else JoinPath(A + [e.name])
  }

  /** The content map a parse builds from the root-level entries `es[i..]`. */
  function RootContents(m: map<string, string>, root: string, es: seq<Node>, i: nat, opts: DumpOptions): map<string, string>
    requires i <= |es|
    decreases |es| - i
  {
    if i == |es| then m
    else
      var e := es[i];
      var m' := match BlockSource(e, opts)
        case Some(c) => m[JoinPath([root, e.name]) := c + "\n"]
        case None => m;
      RootContents(m', root, es, i + 1, opts)
  }

  // ---- One structural line ----

  /** Where the parser stands when the walk starts a directory: not in a
      block, with the ancestors `A` on top of... at the bottom of its stack,
      and the prefix one unit wide per ancestor below the root. */
  ghost predicate At(s: State, A: seq<string>, prefix: string) {
    && !s.collecting
    && 1 <= |A| <= |s.stack| && s.stack[..|A|] == A
    && (forall a :: a in A ==> SimpleName(a))
    && |prefix| == 4 * (|A| - 1)
    && Tee !in prefix && Elbow !in prefix && '#' !in prefix && '\n' !in prefix
  }

  lemma RStripCharOne(n: string)
    requires n != [] && Sep !in n
    ensures RStripChar(n + [Sep], Sep) == n
  {
    assert n[|n| - 1] in n;
  }

  lemma StripNameLine(line: string, k: nat)
    requires k < |line| && !IsSpace(line[k]) && line[k] != '>' && line[k] != '<'
    ensures Strip(line) != OpenMark && Strip(line) != CloseMark && Strip(line) != ""
  {
    StripKeeps(line, k);
  }

  lemma NoCommentLine(line: string)
    requires '#' !in line && line != [] && !IsSpace(line[|line| - 1])
    ensures StripComment(line) == line
  {
    RStripSpec(line);
  }

  /** The connector at the end of the prefix is the first one in the line. */
  lemma ConnectorAfterPrefix(prefix: string, rest: string)
    requires Tee !in prefix && Elbow !in prefix
    requires |rest| >= 3 && (rest[0] == Tee || rest[0] == Elbow) && rest[1] == Dash && rest[2] == Dash
    ensures FindConnector(prefix + rest) == |prefix|
  {
    var line := prefix + rest;
    assert ConnectorAt(line, |prefix|);
  }

  /** The shape of a connector as the walk writes it. */
  predicate ConnectorShape(conn: string) {
    |conn| == 4 && (conn[0] == Tee || conn[0] == Elbow) && conn[1] == Dash && conn[2] == Dash && conn[3] == ' '
  }

  /** The shape of a written name: no blanks at either end, no comment mark, one line. */
  predicate NameShape(out: string) {
    out != [] && !IsSpace(out[0]) && !IsSpace(out[|out| - 1]) && '#' !in out && '\n' !in out
  }

  predicate PrefixShape(prefix: string) {
    Tee !in prefix && Elbow !in prefix && '#' !in prefix && '\n' !in prefix
  }

  lemma WrittenShapes(e: Node, isLast: bool)
    requires PlainName(e.name)
    ensures ConnectorShape(Connector(isLast)) && NameShape(NameOut(e))
    ensures EndsWithChar(NameOut(e), Sep) <==> e.Dir?
  {
    assert e.name[0] in e.name && e.name[|e.name| - 1] in e.name;
  }

  lemma LineHasNoMarks(prefix: string, conn: string, out: string)
    requires PrefixShape(prefix) && ConnectorShape(conn) && NameShape(out)
    ensures '\n' !in prefix + conn + out && '#' !in prefix + conn + out
  {
  }

  lemma LineName(prefix: string, conn: string, out: string)
    requires PrefixShape(prefix) && ConnectorShape(conn) && NameShape(out)
    ensures EntryName(prefix + conn + out) == out
  {
    var line := prefix + conn + out;
    LineAfterConnector(prefix, conn, out);
    GlyphAfterPrefix(prefix, conn + out);
    ConnectorAfterPrefix(prefix, conn + out);
    LStripBlanks(" ", out);
    StripNoop(out);
  }

  lemma LineAfterConnector(prefix: string, conn: string, out: string)
    requires ConnectorShape(conn)
    ensures var line := prefix + conn + out;
      && line == prefix + (conn + out)
      && |conn + out| >= 3 && (conn + out)[0] == conn[0] && (conn + out)[1] == Dash && (conn + out)[2] == Dash
      && line[|prefix| + 3..] == " " + out
  {
    var line := prefix + conn + out;
    assert line[|prefix| + 3..] == " " + out;
  }

  /** How the parser reads an entry line the walk writes: not a sentinel, no
      comment, depth one more than the prefix's units, and the name as written. */
  lemma ReadEntryLine(prefix: string, conn: string, out: string)
    requires PrefixShape(prefix) && ConnectorShape(conn) && NameShape(out)
    ensures var line := prefix + conn + out;
      && Chomp(line) == line && !IsOpen(line) && !IsClose(line)
      && StripComment(line) == line && Strip(line) != ""
      && Depth(line) == |prefix| / 4 + 1
      && EntryName(line) == out
  {
    var line := prefix + conn + out;
    LineHasNoMarks(prefix, conn, out);
    ChompNoNewline(line);
    assert line[|prefix|] == conn[0];
    StripNameLine(line, |prefix|);
    assert line[|line| - 1] == out[|out| - 1];
    NoCommentLine(line);
    assert line == prefix + (conn + out);
    GlyphAfterPrefix(prefix, conn + out);
    LineName(prefix, conn, out);
  }

  /** An entry line at the depth of the ancestors `A`, in terms of what the
      parser reads from it. */
  lemma EntryStepAt(s: State, nc: string, A: seq<string>, n: string, isDir: bool)
    requires Depth(nc) == |A| && |A| <= |s.stack| && s.stack[..|A|] == A
    requires EntryName(nc) == (if isDir then n + [Sep] else n)
    requires n != [] && Sep !in n
    ensures isDir ==> EntryStep(s, nc) == s.(paths := s.paths + [NormalizeRelpath(A + [n]) + [Sep]], stack := A + [n])
    ensures !isDir ==> EntryStep(s, nc) == s.(paths := s.paths + [NormalizeRelpath(A + [n])], stack := A, current := Some(NormalizeRelpath(A + [n])))
  {
    assert n[|n| - 1] in n;
    var kept := if |s.stack| > |A| then s.stack[..|A|] else s.stack;
    assert kept == A;
    if isDir {
      RStripCharOne(n);
    } else {
      assert !EndsWithChar(n, Sep);
    }
  }

  /** One entry line written by the walk, read back by the parser. */
  /** Outside a block, a line that is neither marker, holds no comment and
      is not blank is read as an entry. */
  lemma StepIsEntry(s: State, line: string)
    requires !s.collecting && Chomp(line) == line && !IsOpen(line) && !IsClose(line)
    requires StripComment(line) == line && Strip(line) != ""
    ensures Step(s, line) == EntryStep(s, line)
  {
  }

  /** A prefix of `4 * (m - 1)` characters puts an entry at depth `m`. */
  lemma QuarterDepth(m: int)
    requires m >= 1
    ensures (4 * (m - 1)) / 4 + 1 == m
  {
  }

  lemma HeadStep(s: State, A: seq<string>, prefix: string, e: Node, isLast: bool)
    requires At(s, A, prefix) && PlainName(e.name)
    ensures var t := Step(s, prefix + Connector(isLast) + NameOut(e));
      && t.paths == s.paths + [ListedPath(A, e)]
      && t.contents == s.contents && !t.collecting
      && t.stack == (if e.Dir? then A + [e.name] else A)
      && (e.File? ==> t.current == Some(JoinPath(A + [e.name])))
  {
    var line := prefix + Connector(isLast) + NameOut(e);
    HeadLineFacts(A, prefix, e, isLast);
    StepIsEntry(s, line);
    ListedSimple(A, e.name);
    EntryStepAt(s, line, A, e.name, e.Dir?);
  }

  /** How the parser reads an entry's own line, written below ancestors `A`. */
  lemma HeadLineFacts(A: seq<string>, prefix: string, e: Node, isLast: bool)
    requires |A| >= 1 && |prefix| == 4 * (|A| - 1) && PrefixShape(prefix) && PlainName(e.name)
    ensures var line := prefix + Connector(isLast) + NameOut(e);
      && Chomp(line) == line && !IsOpen(line) && !IsClose(line)
      && StripComment(line) == line && Strip(line) != ""
      && Depth(line) == |A|
      && EntryName(line) == (if e.Dir? then e.name + [Sep] else e.name)
  {
    WrittenShapes(e, isLast);
    ReadEntryLine(prefix, Connector(isLast), NameOut(e));
    QuarterDepth(|A|);
  }

  lemma ListedSimple(A: seq<string>, n: string)
    requires forall a :: a in A ==> SimpleName(a)
    requires SimpleName(n)
    ensures NormalizeRelpath(A + [n]) == JoinPath(A + [n])
  {
    forall m | m in A + [n] ensures SimpleName(m) { }
    NormalizeSimple(A + [n]);
  }

  // ---- A content block ----

  lemma LStripSpaces(w: string, t: string)
    requires forall i :: 0 <= i < |w| ==> IsSpace(w[i])
    ensures LStrip(w + t) == LStrip(t)
    decreases |w|
  {
    if w != [] {
      assert (w + t)[0] == w[0];
      assert (w + t)[1..] == w[1..] + t;
      LStripSpaces(w[1..], t);
    } else {
      assert w + t == t;
    }
  }

  /** The indented sentinel lines of a block opened at the root's prefix. */
  lemma SentinelLines()
    ensures Chomp(Indent + OpenMark) == Indent + OpenMark && IsOpen(Indent + OpenMark)
    ensures Chomp(Indent + CloseMark) == Indent + CloseMark && IsClose(Indent + CloseMark) && !IsOpen(Indent + CloseMark)
  {
    ChompNoNewline(Indent + OpenMark);
    ChompNoNewline(Indent + CloseMark);
    LStripBlanks(Indent, OpenMark);
    LStripBlanks(Indent, CloseMark);
    StripNoop(OpenMark);
    StripNoop(CloseMark);
  }

  /** A content line under the root is collected without its indentation. */
  lemma ContentStep(u: State, piece: string)
    requires u.collecting && '\n' !in piece
    requires Strip(piece) != OpenMark && Strip(piece) != CloseMark
    ensures Step(u, Indent + piece) == u.(buffer := u.buffer + [piece])
  {
    var line := Indent + piece;
    ChompNoNewline(line);
    LStripSpaces(Indent, piece);
    assert OccursAt(line, Indent, 0);
    assert Find(line, Indent) == 0;
    assert ContentLine(line) == piece;
  }

  /** The lines of a content block under the root, between its sentinels. */
  function IndentLines(pieces: seq<string>): seq<string> {
    if pieces == [] then [] else [Indent + pieces[0]] + IndentLines(pieces[1..])
  }

  lemma {:induction false} IndentLinesAt(pieces: seq<string>)
    ensures |IndentLines(pieces)| == |pieces|
    ensures forall k :: 0 <= k < |pieces| ==> IndentLines(pieces)[k] == Indent + pieces[k]
    decreases |pieces|
  {
    if pieces != [] {
      IndentLinesAt(pieces[1..]);
    }
  }

  /** A text line of a block that the parser collects as it is. */
  predicate PlainPiece(piece: string) {
    '\n' !in piece && Strip(piece) != OpenMark && Strip(piece) != CloseMark
  }

  predicate PlainPieces(pieces: seq<string>) {
    pieces == [] || (PlainPiece(pieces[0]) && PlainPieces(pieces[1..]))
  }

  lemma {:induction false} AllPlainPieces(pieces: seq<string>)
    requires forall k :: 0 <= k < |pieces| ==> PlainPiece(pieces[k])
    ensures PlainPieces(pieces)
    decreases |pieces|
  {
    if pieces != [] {
      assert PlainPiece(pieces[0]);
      AllPlainPieces(pieces[1..]);
    }
  }

  lemma RunCons(u: State, line: string, rest: seq<string>)
    ensures Run(u, [line] + rest) == Run(Step(u, line), rest)
  {
    assert ([line] + rest)[0] == line && ([line] + rest)[1..] == rest;
  }

  /** The first line of a block's text is collected without its indentation. */
  lemma CollectOne(u: State, pieces: seq<string>)
    requires u.collecting && pieces != [] && PlainPiece(pieces[0])
    ensures Run(u, IndentLines(pieces)) == Run(u.(buffer := u.buffer + [pieces[0]]), IndentLines(pieces[1..]))
  {
    assert IndentLines(pieces) == [Indent + pieces[0]] + IndentLines(pieces[1..]);
    ContentStep(u, pieces[0]);
    RunCons(u, Indent + pieces[0], IndentLines(pieces[1..]));
  }

  lemma BufferCons(b: seq<string>, pieces: seq<string>)
    requires pieces != []
    ensures b + [pieces[0]] + pieces[1..] == b + pieces
  {
    assert [pieces[0]] + pieces[1..] == pieces;
  }

  lemma {:induction false} CollectLines(u: State, pieces: seq<string>)
    requires u.collecting && PlainPieces(pieces)
    ensures Run(u, IndentLines(pieces)) == u.(buffer := u.buffer + pieces)
    decreases |pieces|
  {
    if pieces == [] {
      assert u.buffer + pieces == u.buffer;
    } else {
      CollectOne(u, pieces);
      CollectLines(u.(buffer := u.buffer + [pieces[0]]), pieces[1..]);
      BufferCons(u.buffer, pieces);
    }
  }

  /** Reading back a root-level file's content block stores its text, without
      trailing newlines, plus one newline under the file's path (fstree.py:47-57). */
  lemma BlockRun(t: State, j: string, e: Node, c: string, opts: DumpOptions)
    requires !t.collecting && t.current == Some(j) && j != ""
    requires BlockSource(e, opts) == Some(c) && NoSentinelLines(c)
    ensures Run(t, ContentBlock(e, "", opts)) == t.(contents := t.contents[j := c + "\n"], current := None, collecting := false, buffer := [])
  {
    var pieces := Split(c, '\n');
    var ls := IndentLines(pieces);
    var open := Indent + OpenMark;
    var close := Indent + CloseMark;
    RootBlockLines(e, c, opts);
    SentinelLines();
    var u := t.(collecting := true, buffer := []);
    assert Step(t, open) == u;
    PlainBlockPieces(c);
    CollectLines(u, pieces);
    assert [] + pieces == pieces;
    var v := u.(buffer := pieces);
    BlockTextOfSplit(c);
    assert Step(v, close) == t.(contents := t.contents[j := c + "\n"], current := None, collecting := false, buffer := []);
    RunBetween(t, open, ls, close);
  }

  /** A run over a line, a block of lines and a line. */
  lemma RunBetween(t: State, open: string, ls: seq<string>, close: string)
    ensures Run(t, [open] + ls + [close]) == Step(Run(Step(t, open), ls), close)
  {
    RunAppend(t, [open] + ls, [close]);
    RunAppend(t, [open], ls);
    RunCons(t, open, []);
    RunCons(Run(Step(t, open), ls), close, []);
  }

  /** The lines of a content block under the root. */
  lemma RootBlockLines(e: Node, c: string, opts: DumpOptions)
    requires BlockSource(e, opts) == Some(c)
    ensures ContentBlock(e, "", opts) == [Indent + OpenMark] + IndentLines(Split(c, '\n')) + [Indent + CloseMark]
  {
    var pieces := Split(c, '\n');
    var mid := Indented("", pieces);
    var ls := IndentLines(pieces);
    IndentLinesAt(pieces);
    forall k | 0 <= k < |pieces| ensures mid[k] == ls[k] {
      assert "" + Indent + pieces[k] == Indent + pieces[k];
    }
    assert mid == ls;
    assert "" + Indent + OpenMark == Indent + OpenMark;
    assert "" + Indent + CloseMark == Indent + CloseMark;
  }

  lemma PlainBlockPieces(c: string)
    requires NoSentinelLines(c)
    ensures PlainPieces(Split(c, '\n'))
  {
    var pieces := Split(c, '\n');
    forall k | 0 <= k < |pieces| ensures PlainPiece(pieces[k]) {
      assert pieces[k] in pieces;
    }
    AllPlainPieces(pieces);
  }

  // ---- The walk read back ----

  /** A walk over a plain subtree with no content blocks is read back as the
      listing below the ancestors `A`, leaving them at the bottom of the stack. */
  lemma {:induction false} WalkRun(s: State, A: seq<string>, prefix: string, d: Node, level: int, opts: DumpOptions)
    requires At(s, A, prefix) && PlainTree(d) && Quiet(d, opts)
    ensures var r := Run(s, WalkLines(d, prefix, level, opts));
      At(r, A, prefix) && r.paths == s.paths + TreePaths(A, d, level, opts) && r.contents == s.contents
    decreases d, 1
  {
    if !Cut(opts, level) {
      var es := Entries(d, opts);
      forall e | e in es ensures PlainTree(e) && Quiet(e, opts) { }
      EntriesRun(s, A, prefix, d, es, 0, level, opts);
    } else {
      assert s.paths + [] == s.paths;
    }
  }

  lemma {:induction false} EntriesRun(s: State, A: seq<string>, prefix: string, d: Node, es: seq<Node>, i: nat, level: int, opts: DumpOptions)
    requires i <= |es|
    requires forall e :: e in es ==> d.Dir? && e in d.children
    requires forall e :: e in es ==> PlainTree(e) && Quiet(e, opts)
    requires At(s, A, prefix)
    ensures var r := Run(s, EntriesLines(d, es, i, prefix, level, opts));
      At(r, A, prefix) && r.paths == s.paths + EntriesPaths(A, d, es, i, level, opts) && r.contents == s.contents
    decreases d, 0, |es| - i
  {
    if i == |es| {
      assert s.paths + [] == s.paths;
    } else {
      var e := es[i];
      assert e in es;
      assert e < d by { var k :| 0 <= k < |d.children| && d.children[k] == e; }
      var here := EntryLines(e, i == |es| - 1, prefix, level, opts);
      var rest := EntriesLines(d, es, i + 1, prefix, level, opts);
      RunAppend(s, here, rest);
      EntryRun(s, A, prefix, e, i == |es| - 1, level, opts);
      var mid := Run(s, here);
      EntriesRun(mid, A, prefix, d, es, i + 1, level, opts);
      ConcatAssoc(s.paths, EntryPaths(A, e, level, opts), EntriesPaths(A, d, es, i + 1, level, opts));
    }
  }

  lemma {:induction false} EntryRun(s: State, A: seq<string>, prefix: string, e: Node, isLast: bool, level: int, opts: DumpOptions)
    requires At(s, A, prefix) && PlainTree(e) && Quiet(e, opts)
    ensures var r := Run(s, EntryLines(e, isLast, prefix, level, opts));
      At(r, A, prefix) && r.paths == s.paths + EntryPaths(A, e, level, opts) && r.contents == s.contents
    decreases e, 3
  {
    var head := prefix + Connector(isLast) + NameOut(e);
    var tail := if e.Dir? then WalkLines(e, prefix + Continuation(isLast), level + 1, opts) else ContentBlock(e, prefix, opts);
    var lines := EntryLines(e, isLast, prefix, level, opts);
    assert lines == [head] + tail;
    assert lines[0] == head && lines[1..] == tail;
    HeadStep(s, A, prefix, e, isLast);
    var t := Step(s, head);
    assert Run(s, lines) == Run(t, tail);
    if e.Dir? {
      DirEntryRun(s, t, A, prefix, e, isLast, level, opts);
    } else {
      assert tail == [];
      assert EntryPaths(A, e, level, opts) == [ListedPath(A, e)];
      assert t.stack[..|A|] == A;
    }
  }

  /** The subtree of a directory entry, read after the entry's own line. */
  lemma {:induction false} DirEntryRun(s: State, t: State, A: seq<string>, prefix: string, e: Node, isLast: bool, level: int, opts: DumpOptions)
    requires At(s, A, prefix) && PlainTree(e) && Quiet(e, opts) && e.Dir?
    requires t.paths == s.paths + [ListedPath(A, e)] && t.contents == s.contents && !t.collecting
    requires t.stack == A + [e.name]
    ensures var r := Run(t, WalkLines(e, prefix + Continuation(isLast), level + 1, opts));
      At(r, A, prefix) && r.paths == s.paths + EntryPaths(A, e, level, opts) && r.contents == s.contents
    decreases e, 2
  {
    var ext := prefix + Continuation(isLast);
    assert Tee !in Continuation(isLast) && Elbow !in Continuation(isLast);
    assert '#' !in Continuation(isLast) && '\n' !in Continuation(isLast);
    assert (A + [e.name])[..|A|] == A;
    assert At(t, A + [e.name], ext);
    WalkRun(t, A + [e.name], ext, e, level + 1, opts);
    var r := Run(t, WalkLines(e, ext, level + 1, opts));
    assert r.stack[..|A|] == r.stack[..|A| + 1][..|A|];
    ConcatAssoc(s.paths, [ListedPath(A, e)], TreePaths(A + [e.name], e, level + 1, opts));
  }

  // ---- The root ----

  /** The entries the walk lists directly under the root. */
  function RootEntries(t: Node, opts: DumpOptions): (r: seq<Node>)
    ensures forall e :: e in r ==> t.Dir? && e in t.children
  {
    if Cut(opts, 0) then [] else Entries(t, opts)
  }

  /** What a root-level entry must satisfy for its dump to read back. */
  ghost predicate RootChildReadable(c: Node, opts: DumpOptions) {
    && PlainTree(c)
    && (c.Dir? ==> Quiet(c, opts))
    && (BlockSource(c, opts).Some? ==> NoSentinelLines(BlockSource(c, opts).value))
  }

  lemma RootLine(n: string)
    requires PlainName(n)
    ensures Step(Init, n + [Sep]) == Init.(paths := [n + [Sep]], stack := [n])
  {
    var line := n + [Sep];
    assert n[0] in n && n[|n| - 1] in n;
    assert '\n' !in line && '#' !in line && Tee !in line && Elbow !in line;
    ChompNoNewline(line);
    StripNoop(line);
    StripNameLine(line, |line| - 1);
    NoCommentLine(line);
    assert GlyphColumn(line) < 0;
    assert EntryName(line) == line;
    assert Init.stack[..0] == [];
    EntryStepAt(Init, line, [], n, true);
    NormalizeSimple([n]);
    assert JoinPath([n]) == n;
    assert [] + [n] == [n];
  }

  lemma BlockEntryLines(e: Node, isLast: bool, c: string, opts: DumpOptions)
    requires BlockSource(e, opts) == Some(c)
    ensures EntryLines(e, isLast, "", 0, opts) == ["" + Connector(isLast) + NameOut(e)] + ContentBlock(e, "", opts)
  {
  }

  lemma RootJoinNonEmpty(root: string, name: string)
    requires SimpleName(root)
    ensures [root] + [name] == [root, name] && JoinPath([root, name]) != ""
  {
    assert [root] + [name] == [root, name];
    var j := JoinPath([root, name]);
    assert root in [root];
    assert |j| >= |root|;
  }

  /** A root-level file entry with a content block: its line, then its block. */
  lemma BlockEntryRun(s: State, root: string, e: Node, isLast: bool, c: string, opts: DumpOptions)
    requires At(s, [root], "") && RootChildReadable(e, opts) && BlockSource(e, opts) == Some(c)
    ensures var mid := Run(s, EntryLines(e, isLast, "", 0, opts));
      && At(mid, [root], "")
      && mid.paths == s.paths + [ListedPath([root], e)]
      && mid.contents == s.contents[JoinPath([root, e.name]) := c + "\n"]
  {
    var head := "" + Connector(isLast) + NameOut(e);
    BlockEntryLines(e, isLast, c, opts);
    HeadStep(s, [root], "", e, isLast);
    var h := Step(s, head);
    var j := JoinPath([root, e.name]);
    RootJoinNonEmpty(root, e.name);
    BlockRun(h, j, e, c, opts);
    RunCons(s, head, ContentBlock(e, "", opts));
    var mid := Run(h, ContentBlock(e, "", opts));
    assert mid.stack[..1] == [root];
  }

  lemma {:induction false} RootEntriesRun(s: State, root: string, t: Node, es: seq<Node>, i: nat, opts: DumpOptions)
    requires i <= |es|
    requires forall e :: e in es ==> t.Dir? && e in t.children
    requires forall e :: e in es ==> RootChildReadable(e, opts)
    requires At(s, [root], "")
    ensures var r := Run(s, EntriesLines(t, es, i, "", 0, opts));
      && At(r, [root], "")
      && r.paths == s.paths + EntriesPaths([root], t, es, i, 0, opts)
      && r.contents == RootContents(s.contents, root, es, i, opts)
    decreases |es| - i
  {
    if i == |es| {
      assert s.paths + [] == s.paths;
    } else {
      var e := es[i];
      var isLast := i == |es| - 1;
      var here := EntryLines(e, isLast, "", 0, opts);
      var rest := EntriesLines(t, es, i + 1, "", 0, opts);
      EntriesLinesAt(t, es, i, "", 0, opts);
      RunAppend(s, here, rest);
      var mid := Run(s, here);
      RootEntryStep(s, root, es, i, opts);
      RootEntriesRun(mid, root, t, es, i + 1, opts);
      ConcatAssoc(s.paths, EntryPaths([root], e, 0, opts), EntriesPaths([root], t, es, i + 1, 0, opts));
    }
  }

  /** One root-level entry read back: its path (and its subtree's), and its
      content block's text if it has one. */
  lemma RootEntryStep(s: State, root: string, es: seq<Node>, i: nat, opts: DumpOptions)
    requires i < |es|
    requires forall e :: e in es ==> RootChildReadable(e, opts)
    requires At(s, [root], "")
    ensures var e := es[i];
      var mid := Run(s, EntryLines(e, i == |es| - 1, "", 0, opts));
      && At(mid, [root], "")
      && mid.paths == s.paths + EntryPaths([root], e, 0, opts)
      && mid.contents == match BlockSource(e, opts)
           case Some(c) => s.contents[JoinPath([root, e.name]) := c + "\n"]
           case None => s.contents
  {
    var e := es[i];
    assert e in es;
    var isLast := i == |es| - 1;
    match BlockSource(e, opts)
    case None =>
      assert Quiet(e, opts);
      EntryRun(s, [root], "", e, isLast, 0, opts);
    case Some(c) =>
      BlockEntryRun(s, root, e, isLast, c, opts);
      assert EntryPaths([root], e, 0, opts) == [ListedPath([root], e)];
  }

  /** Parsing a dump lists, after the root directory itself, exactly the
      entries the walk visited (sorted, filtered, cut at `max_level`), each
      prefixed by the root's name; the content map holds, for each root-level
      file that got a block, its text without trailing newlines plus one
      newline.  Deeper files must get no block: see `BarPrefixBreaksBlock`
      and `IndentedBlockGainsIndent` for what happens to them. */
  lemma DumpParseRoundTrip(t: Node, opts: DumpOptions)
    requires t.Dir? && PlainName(t.name)
    requires forall c :: c in t.children ==> RootChildReadable(c, opts)
    ensures Parse(DumpLines(t, opts)).paths == [t.name + [Sep]] + TreePaths([t.name], t, 0, opts)
    ensures Parse(DumpLines(t, opts)).contents == RootContents(map[], t.name, RootEntries(t, opts), 0, opts)
  {
    var lines := DumpLines(t, opts);
    var walk := WalkLines(t, "", 0, opts);
    assert lines[0] == t.name + "/" && lines[1..] == walk;
    RootLine(t.name);
    var s := Init.(paths := [t.name + [Sep]], stack := [t.name]);
    assert Parse(lines) == Run(s, walk);
    assert At(s, [t.name], "");
    var es := RootEntries(t, opts);
    if Cut(opts, 0) {
      assert walk == [];
    } else {
      assert walk == EntriesLines(t, es, 0, "", 0, opts);
      RootEntriesRun(s, t.name, t, es, 0, opts);
    }
  }

  // ---- Consequences ----

  lemma {:induction false} JoinSnoc(A: seq<string>, n: string)
    requires A != []
    ensures JoinPath(A + [n]) == JoinPath(A) + [Sep] + n
    decreases |A|
  {
    JoinHead(A[0], A[1..] + [n]);
    assert [A[0]] + (A[1..] + [n]) == A + [n];
    JoinHead(A[0], A[1..]);
    assert [A[0]] + A[1..] == A;
    if |A| > 1 {
      JoinSnoc(A[1..], n);
    } else {
      assert A[1..] + [n] == [n];
    }
  }

  /** Every path listed below the ancestors `A` begins with their joined path and a separator. */
  lemma {:induction false} TreePathsUnder(A: seq<string>, d: Node, level: int, opts: DumpOptions)
    requires A != []
    ensures forall p :: p in TreePaths(A, d, level, opts) ==> JoinPath(A) + [Sep] <= p
    decreases d, 1
  {
    if !Cut(opts, level) {
      EntriesPathsUnder(A, d, Entries(d, opts), 0, level, opts);
    }
  }

  lemma {:induction false} EntriesPathsUnder(A: seq<string>, d: Node, es: seq<Node>, i: nat, level: int, opts: DumpOptions)
    requires A != []
    requires i <= |es|
    requires forall e :: e in es ==> d.Dir? && e in d.children
    ensures forall p :: p in EntriesPaths(A, d, es, i, level, opts) ==> JoinPath(A) + [Sep] <= p
    decreases d, 0, |es| - i
  {
    if i < |es| {
      assert es[i] in es;
      assert es[i] < d by { var k :| 0 <= k < |d.children| && d.children[k] == es[i]; }
      EntryPathsUnder(A, es[i], level, opts);
      EntriesPathsUnder(A, d, es, i + 1, level, opts);
    }
  }

  lemma {:induction false} EntryPathsUnder(A: seq<string>, e: Node, level: int, opts: DumpOptions)
    requires A != []
    ensures forall p :: p in EntryPaths(A, e, level, opts) ==> JoinPath(A) + [Sep] <= p
    decreases e, 2
  {
    var base := JoinPath(A) + [Sep];
    var own := JoinPath(A + [e.name]);
    JoinSnoc(A, e.name);
    assert base <= own by { assert own == base + e.name; }
    assert base <= ListedPath(A, e) by {
      assert ListedPath(A, e)[..|base|] == own[..|base|];
    }
    if e.Dir? {
      TreePathsUnder(A + [e.name], e, level + 1, opts);
      var sub := TreePaths(A + [e.name], e, level + 1, opts);
      forall p | p in sub ensures base <= p {
        assert own + [Sep] <= p;
        assert p[..|base|] == (own + [Sep])[..|base|] == own[..|base|];
      }
    }
  }

  /** Every path a parse of a dump returns begins with the root's name and a
      separator: the root line stays at the bottom of the stack (fstree.py:131,
      76-88). */
  lemma ParsedPathsUnderRoot(t: Node, opts: DumpOptions)
    requires t.Dir? && PlainName(t.name)
    requires forall c :: c in t.children ==> RootChildReadable(c, opts)
    ensures forall p :: p in Parse(DumpLines(t, opts)).paths ==> t.name + [Sep] <= p
  {
    DumpParseRoundTrip(t, opts);
    TreePathsUnder([t.name], t, 0, opts);
    assert JoinPath([t.name]) == t.name;
  }

  lemma RootKeyInjective(root: string, a: string, b: string)
    requires JoinPath([root, a]) == JoinPath([root, b])
    ensures a == b
  {
    JoinSnoc([root], a);
    JoinSnoc([root], b);
    assert [root] + [a] == [root, a] && [root] + [b] == [root, b];
    assert JoinPath([root]) == root;
    var base := root + [Sep];
    assert a == JoinPath([root, a])[|base|..];
  }

  lemma {:induction false} RootContentsHas(m: map<string, string>, root: string, es: seq<Node>, i: nat, opts: DumpOptions, e: Node, c: string)
    requires i <= |es|
    requires BlockSource(e, opts) == Some(c)
    requires forall x :: x in es && x.name == e.name ==> x == e
    requires e in es[i..] || (JoinPath([root, e.name]) in m && m[JoinPath([root, e.name])] == c + "\n")
    ensures var r := RootContents(m, root, es, i, opts);
      JoinPath([root, e.name]) in r && r[JoinPath([root, e.name])] == c + "\n"
    decreases |es| - i
  {
    var key := JoinPath([root, e.name]);
    if i < |es| {
      var x := es[i];
      assert x in es;
      var m' := match BlockSource(x, opts)
        case Some(cx) => m[JoinPath([root, x.name]) := cx + "\n"]
        case None => m;
      if BlockSource(x, opts).Some? && JoinPath([root, x.name]) == key {
        RootKeyInjective(root, x.name, e.name);
      }
      assert e in es[i..] && e != x ==> e in es[i + 1..] by {
        if e in es[i..] && e != x {
          var k :| 0 <= k < |es[i..]| && es[i..][k] == e;
          assert k != 0;
          assert es[i + 1..][k - 1] == e;
        }
      }
      assert e in es[i + 1..] || (key in m' && m'[key] == c + "\n");
      RootContentsHas(m', root, es, i + 1, opts, e, c);
    } else {
      assert es[i..] == [];
    }
  }

  /** The content round trip for a file directly under the root whose name no
      other root entry shares: the parsed content is the file's text with
      trailing newlines replaced by exactly one (fstree.py:54, 155-166). */
  lemma RootFileContent(t: Node, opts: DumpOptions, e: Node)
    requires t.Dir? && PlainName(t.name)
    requires forall c :: c in t.children ==> RootChildReadable(c, opts)
    requires e in RootEntries(t, opts) && BlockSource(e, opts).Some?
    requires forall x :: x in RootEntries(t, opts) && x.name == e.name ==> x == e
    ensures var contents := Parse(DumpLines(t, opts)).contents;
      var key := t.name + [Sep] + e.name;
      key in contents && contents[key] == RStripChar(e.text.value, '\n') + "\n"
  {
    var es := RootEntries(t, opts);
    DumpParseRoundTrip(t, opts);
    assert es[0..] == es;
    RootContentsHas(map[], t.name, es, 0, opts, e, BlockSource(e, opts).value);
    JoinSnoc([t.name], e.name);
    assert [t.name] + [e.name] == [t.name, e.name];
    assert JoinPath([t.name]) == t.name;
  }

  // ---- Where content does not come back ----

  /** Under a `│   ` prefix (a file inside a directory that is not the last
      entry), the opening line of a content block does not strip to `>>>`:
      the bar is not whitespace.  The parser reads the line as a file entry at
      depth 0 whose name is the whole line, empties the ancestor stack, and
      the block's content lines become paths in turn (fstree.py:47, 63-88). */
  lemma BarPrefixBreaksBlock(s: State, e: Node, opts: DumpOptions)
    requires !s.collecting && BlockSource(e, opts).Some?
    ensures var b := ContentBlock(e, MidContinuation, opts);
      && b != [] && b[0] == MidContinuation + Indent + OpenMark
      && !IsOpen(Chomp(b[0]))
      && Step(s, b[0]) == s.(paths := s.paths + [b[0]], stack := [], current := Some(b[0]))
  {
    var line := MidContinuation + Indent + OpenMark;
    BarLineFacts();
    StepIsEntry(s, line);
    assert s.stack[..0] == [];
    EntryStepAt(s, line, [], line, false);
    NormalizeSimple([line]);
    assert JoinPath([line]) == line;
    assert [] + [line] == [line];
  }

  /** How the parser reads the opening line of a block under a bar prefix. */
  lemma BarLineFacts()
    ensures var line := MidContinuation + Indent + OpenMark;
      && Chomp(line) == line && !IsOpen(line) && !IsClose(line)
      && StripComment(line) == line && Strip(line) != ""
      && Depth(line) == 0 && EntryName(line) == line
      && line != [] && Sep !in line && SimpleName(line)
  {
    var line := MidContinuation + Indent + OpenMark;
    assert '\n' !in line && '#' !in line && Tee !in line && Elbow !in line && Sep !in line;
    ChompNoNewline(line);
    StripNoop(line);
    NoCommentLine(line);
    assert GlyphColumn(line) < 0;
  }

  /** Under a four-space prefix (a file inside the last directory), a content
      line keeps one indentation unit: only the first four-space run is cut.
      For `main.py` holding `print(1)` the parser stores `    print(1)` plus a
      newline (fstree.py:59-60). */
  lemma IndentedBlockGainsIndent(t: State, j: string)
    requires !t.collecting && t.current == Some(j) && j != ""
    ensures var e := File("main.py", Some("print(1)"));
      var opts := DumpOptions({}, true, false, None);
      var r := Run(t, ContentBlock(e, LastContinuation, opts));
      j in r.contents && r.contents[j] == "    print(1)\n"
  {
    var text := "print(1)";
    var open := LastContinuation + Indent + OpenMark;
    var body := LastContinuation + Indent + text;
    var close := LastContinuation + Indent + CloseMark;
    IndentedBlockLines();
    var u := t.(collecting := true, buffer := []);
    var v := u.(buffer := [Indent + text]);
    IndentedOpenStep(t);
    IndentedBodyStep(u);
    assert [] + [Indent + text] == [Indent + text];
    IndentedCloseStep(v);
    RunBetween(t, open, [body], close);
    RunCons(u, body, []);
  }

  /** The block dumped for `main.py` under a four-space prefix. */
  lemma IndentedBlockLines()
    ensures var e := File("main.py", Some("print(1)"));
      ContentBlock(e, LastContinuation, DumpOptions({}, true, false, None))
      == [LastContinuation + Indent + OpenMark] + [LastContinuation + Indent + "print(1)"] + [LastContinuation + Indent + CloseMark]
  {
    var text := "print(1)";
    assert '\n' !in text;
    assert RStripChar(text, '\n') == text;
    assert Split(text, '\n') == [text] by { assert FindChar(text, '\n') < 0; }
  }

  /** The three lines of that block, one parser step each. */
  lemma IndentedOpenStep(t: State)
    requires !t.collecting
    ensures Step(t, LastContinuation + Indent + OpenMark) == t.(collecting := true, buffer := [])
  {
    var open := LastContinuation + Indent + OpenMark;
    ChompNoNewline(open);
    LStripBlanks(LastContinuation + Indent, OpenMark);
    StripNoop(OpenMark);
  }

  lemma IndentedBodyStep(u: State)
    requires u.collecting
    ensures Step(u, LastContinuation + Indent + "print(1)") == u.(buffer := u.buffer + [Indent + "print(1)"])
  {
    var text := "print(1)";
    var body := LastContinuation + Indent + text;
    ChompNoNewline(body);
    LStripBlanks(LastContinuation + Indent, text);
    StripNoop(text);
    assert OccursAt(body, Indent, 0);
    assert ContentLine(body) == Indent + text;
  }

  lemma IndentedCloseStep(v: State)
    requires v.collecting && v.current.Some? && v.current.value != "" && v.buffer == [Indent + "print(1)"]
    ensures Step(v, LastContinuation + Indent + CloseMark).contents == v.contents[v.current.value := "    print(1)\n"]
  {
    var close := LastContinuation + Indent + CloseMark;
    ChompNoNewline(close);
    LStripBlanks(LastContinuation + Indent, CloseMark);
    StripNoop(CloseMark);
    assert BlockText([Indent + "print(1)"]) == Indent + "print(1)" + "\n" == "    print(1)\n";
  }
}
