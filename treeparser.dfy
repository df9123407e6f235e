/**
 * The tree-text parser `parse_tree_file` (fstree.py:34-89).
 *
 * The parser is a single pass over the lines of the file.  Its state is the
 * record `State`; `Step` is what one loop iteration does to it and `Parse`
 * runs `Step` over all lines.  `ParseTreeFile` is the loop itself, written
 * with the source's own variables, and is proved to compute `Parse`.
 */
module TreeParser {
  import opened Wrappers
  import opened PyStr
  import opened PathModel

  /** The connector glyphs and the horizontal bar that follows them. */
  const Tee: char := '\U{251C}'    // the non-last connector glyph
  const Elbow: char := '\U{2514}'  // the last-sibling connector glyph
  const Dash: char := '\U{2500}'   // the horizontal bar of a connector

  /** One indentation unit, and the sentinels that open and close a content block. */
  const Indent: string := "    "
  const OpenMark: string := ">>>"
  const CloseMark: string := "<<<"

  /** The loop state: the source's `paths`, `contents`, `stack`, `collecting`,
      `buffer` and `current_file_rel`. */
  datatype State = State(
    paths: seq<string>,
    contents: map<string, string>,
    stack: seq<string>,
    collecting: bool,
    buffer: seq<string>,
    current: Option<string>)

  const Init: State := State([], map[], [], false, [], None)

  // ---- Pieces of one line ----

  /** `raw_line.rstrip("\n")`. */
  function Chomp(raw: string): string {
    RStripChar(raw, '\n')
  }

  /** Is this (chomped) line a sentinel, whatever the mode? */
  predicate IsOpen(line: string) { Strip(line) == OpenMark }
  predicate IsClose(line: string) { Strip(line) == CloseMark }

  /** A collected content line loses everything through its first four-space
      run, or only its leading whitespace when it has none (fstree.py:59-60). */
  function ContentLine(line: string): (r: string)
    ensures |r| <= |line|
  {
    var idx := Find(line, Indent);
    if idx >= 0 then line[idx + 4..] else LStrip(line)
  }

  /** A collected line is a suffix of the raw line; what is cut is everything
      through the first four-space run, or else a run of leading whitespace. */
  lemma ContentLineSpec(line: string)
    ensures var r := ContentLine(line);
      && r == line[|line| - |r|..]
      && (Find(line, Indent) >= 0 ==>
            |line| - |r| >= 4 && OccursAt(line, Indent, |line| - |r| - 4) &&
            forall j :: 0 <= j < |line| - |r| - 4 ==> !OccursAt(line, Indent, j))
      && (Find(line, Indent) < 0 ==>
            (r == [] || !IsSpace(r[0])) && forall j :: 0 <= j < |line| - |r| ==> IsSpace(line[j]))
  {
    LStripSpec(line);
  }

  /** `line.split("#", 1)[0].rstrip()`: the structural part of a line, that is
      the text before the first `#` with only its trailing blanks removed. */
  function StripComment(line: string): (r: string)
    ensures '#' !in r
    ensures |r| <= |line| && r == line[..|r|]
    ensures |r| <= |Before(line, '#')| && (r == [] || !IsSpace(r[|r| - 1]))
    ensures forall i :: |r| <= i < |Before(line, '#')| ==> IsSpace(Before(line, '#')[i])
  {
    var b := Before(line, '#');
    RStripSpec(b);
    var r := RStrip(b);
    assert forall i :: 0 <= i < |r| ==> r[i] == b[i];
    r
  }

  /** Column of the first connector glyph of either kind, or -1 (fstree.py:66-68). */
  function GlyphColumn(s: string): (r: int)
    ensures -1 <= r < |s|
    ensures r >= 0 ==> (s[r] == Tee || s[r] == Elbow)
    ensures r >= 0 ==> forall j :: 0 <= j < r ==> s[j] != Tee && s[j] != Elbow
    ensures r < 0 <==> Tee !in s && Elbow !in s
  {
    var a := FindChar(s, Tee);
    var b := FindChar(s, Elbow);
    if a < 0 then b
    else if b < 0 then a
    else if a < b then a else b
  }

  /** Nesting depth of a structural line: glyph column // 4 + 1, or 0 (fstree.py:66-74). */
  function Depth(s: string): nat {
    var g := GlyphColumn(s);
    if g >= 0 then g / 4 + 1 else 0
  }

  /** Does a full connector (a glyph and two bars) start at `i`? */
  predicate ConnectorAt(s: string, i: int) {
    0 <= i && i + 3 <= |s| && (s[i] == Tee || s[i] == Elbow) && s[i + 1] == Dash && s[i + 2] == Dash
  }

  /** Where `connector_re.search` matches: the first full connector, or -1. */
  function FindConnector(s: string): (r: int)
    ensures r >= 0 ==> ConnectorAt(s, r)
    ensures r >= 0 ==> forall j :: 0 <= j < r ==> !ConnectorAt(s, j)
    ensures r < 0 ==> forall j :: !ConnectorAt(s, j)
  {
    FindConnectorFrom(s, 0)
  }

  function FindConnectorFrom(s: string, i: nat): (r: int)
    requires forall j :: 0 <= j < i ==> !ConnectorAt(s, j)
    ensures r >= 0 ==> i <= r && ConnectorAt(s, r)
    ensures r >= 0 ==> forall j :: 0 <= j < r ==> !ConnectorAt(s, j)
    ensures r < 0 ==> forall j :: !ConnectorAt(s, j)
    decreases |s| - i
  {
    if i + 3 > |s| then -1
    else if ConnectorAt(s, i) then i
    else FindConnectorFrom(s, i + 1)
  }

  /** The entry name of a structural line (fstree.py:66-75): the text after the
      connector and its blanks; after a lone glyph if no full connector; the
      whole stripped line if there is no glyph; trailing blanks removed. */
  function EntryName(s: string): string {
    RStrip(RawName(s))
  }

  function RawName(s: string): string {
    var g := GlyphColumn(s);
    if g < 0 then Strip(s)
    else
      var m := FindConnector(s);
      if m >= 0 then LStrip(s[m + 3..]) else Strip(s[g + 1..])
  }

  /** The text stored for a closed content block (fstree.py:54). */
  function BlockText(buffer: seq<string>): string {
    Join(buffer, "\n") + (if buffer != [] && !EndsWithChar(buffer[|buffer| - 1], '\n') then "\n" else "")
  }

  // ---- One loop iteration ----

  /** A structural line that survived comment stripping (fstree.py:66-88). */
  function EntryStep(s: State, nc: string): State {
    var depth := Depth(nc);
    var name := EntryName(nc);
    var stack := if |s.stack| > depth then s.stack[..depth] else s.stack;
    if EndsWithChar(name, Sep) then
      var part := RStripChar(name, Sep);
      var parts := if part != "" then stack + [part] else stack;
      s.(paths := s.paths + [NormalizeRelpath(parts) + [Sep]], stack := parts)
    else
      var rel := NormalizeRelpath(stack + [name]);
      s.(paths := s.paths + [rel], stack := stack, current := Some(rel))
  }

  /** One iteration of the loop over lines (fstree.py:45-88). */
  function Step(s: State, raw: string): State {
    var line := Chomp(raw);
    if IsOpen(line) then s.(collecting := true, buffer := [])
    else if IsClose(line) then
      var contents :=
        if s.current.Some? && s.current.value != "" then s.contents[s.current.value := BlockText(s.buffer)]
        else s.contents;
      s.(collecting := false, contents := contents, current := None, buffer := [])
    else if s.collecting then s.(buffer := s.buffer + [ContentLine(line)])
    else
      var nc := StripComment(line);
      if Strip(nc) == "" then s else EntryStep(s, nc)
  }

  /** The loop run over `lines` from state `s`. */
  function Run(s: State, lines: seq<string>): State
    decreases |lines|
  {
    if lines == [] then s else Run(Step(s, lines[0]), lines[1..])
  }

  /** What `parse_tree_file` returns, as a state (its `paths` and `contents`). */
  function Parse(lines: seq<string>): State {
    Run(Init, lines)
  }

  // ---- The loop, as the source writes it ----

  /** The depth and name of a structural line, as fstree.py:66-75 compute them. */
  method LineDepthAndName(noComment: string) returns (depth: nat, name: string)
    ensures depth == Depth(noComment) && name == EntryName(noComment)
  {
    var connIdx := GlyphColumn(noComment);
    var after: string;
    if connIdx >= 0 {
      depth := connIdx / 4 + 1;
      var m := FindConnector(noComment);
      after := if m >= 0 then noComment[m + 3..] else noComment[connIdx + 1..];
    } else {
      depth := 0;
      after := noComment;
    }
    name := Strip(after);
    StripSpec(after);
    StripNoop(name);
    name := RStrip(name);
  }

  /** What the depth and name of a structural line are.  The depth is 0 exactly
      when the line holds no glyph; otherwise it names the four-column band the
      first glyph sits in.  The name has no blanks at its ends: it is the
      stripped text after the first full connector, else after the first glyph,
      else the whole stripped line. */
  lemma EntryLineShape(nc: string)
    ensures Depth(nc) == 0 <==> Tee !in nc && Elbow !in nc
    ensures Depth(nc) > 0 ==> 4 * (Depth(nc) - 1) <= GlyphColumn(nc) < 4 * Depth(nc)
    ensures var name := EntryName(nc);
      && (name == [] || (!IsSpace(name[0]) && !IsSpace(name[|name| - 1])))
      && (Tee !in nc && Elbow !in nc ==> name == Strip(nc))
      && (FindConnector(nc) >= 0 ==> name == Strip(nc[FindConnector(nc) + 3..]))
      && (GlyphColumn(nc) >= 0 && FindConnector(nc) < 0 ==> name == Strip(nc[GlyphColumn(nc) + 1..]))
  {
    DepthBand(nc);
    var g := GlyphColumn(nc);
    var m := FindConnector(nc);
    if g < 0 {
      NoGlyphNoConnector(nc);
      NameOfStripped(nc, nc);
    } else if m >= 0 {
      NameOfStripped(nc, nc[m + 3..]);
    } else {
      NameOfStripped(nc, nc[g + 1..]);
    }
  }

  lemma NoGlyphNoConnector(nc: string)
    requires Tee !in nc && Elbow !in nc
    ensures FindConnector(nc) < 0
  {
    forall j | 0 <= j < |nc| ensures nc[j] != Tee && nc[j] != Elbow {
      assert nc[j] in nc;
    }
  }

  lemma DepthBand(nc: string)
    ensures Depth(nc) == 0 <==> Tee !in nc && Elbow !in nc
    ensures Depth(nc) > 0 ==> 4 * (Depth(nc) - 1) <= GlyphColumn(nc) < 4 * Depth(nc)
  {
    var g := GlyphColumn(nc);
    if g >= 0 {
      QuarterBand(g);
    }
  }

  lemma QuarterBand(g: nat)
    ensures 4 * (g / 4) <= g < 4 * (g / 4 + 1)
  {
  }

  lemma NameOfStripped(nc: string, after: string)
    requires RawName(nc) == Strip(after) || RawName(nc) == LStrip(after)
    ensures EntryName(nc) == Strip(after)
    ensures Strip(after) == [] || (!IsSpace(Strip(after)[0]) && !IsSpace(Strip(after)[|Strip(after)| - 1]))
  {
    StripSpec(after);
    StripNoop(Strip(after));
  }

  /** The run from line `i` is one step, then the run from line `i + 1`. */
  lemma RunAt(s: State, lines: seq<string>, i: nat)
    requires i < |lines|
    ensures Run(s, lines[i..]) == Run(Step(s, lines[i]), lines[i + 1..])
  {
    assert lines[i..][0] == lines[i] && lines[i..][1..] == lines[i + 1..];
  }

  /** The stack cut, and the path and stack or current-file update, for a
      structural line (fstree.py:66-88). */
  method EntryLine(paths: seq<string>, stack: seq<string>, current: Option<string>, noComment: string, ghost s: State)
    returns (paths': seq<string>, stack': seq<string>, current': Option<string>)
    requires s.paths == paths && s.stack == stack && s.current == current
    ensures EntryStep(s, noComment) == s.(paths := paths', stack := stack', current := current')
  {
    var depth, name := LineDepthAndName(noComment);
    paths', stack', current' := paths, stack, current;
    if |stack'| > depth {
      stack' := stack'[..depth];
    }
    if EndsWithChar(name, Sep) {
      var part := RStripChar(name, Sep);
      var parts := if part != "" then stack' + [part] else stack';
      var rel := NormalizeRelpath(parts) + [Sep];
      paths' := paths' + [rel];
      stack' := parts;
    } else {
      var rel := NormalizeRelpath(stack' + [name]);
      paths' := paths' + [rel];
      current' := Some(rel);
    }
  }

  /** One pass of the loop of `parse_tree_file` over a line (fstree.py:45-88),
      on the loop's variables. */
  method ParseLine(paths: seq<string>, contents: map<string, string>, stack: seq<string>,
                   collecting: bool, buffer: seq<string>, current: Option<string>, raw: string)
    returns (paths': seq<string>, contents': map<string, string>, stack': seq<string>,
             collecting': bool, buffer': seq<string>, current': Option<string>)
    ensures State(paths', contents', stack', collecting', buffer', current')
         == Step(State(paths, contents, stack, collecting, buffer, current), raw)
  {
    ghost var before := State(paths, contents, stack, collecting, buffer, current);
    paths', contents', stack', collecting', buffer', current' := paths, contents, stack, collecting, buffer, current;
    var line := Chomp(raw);
    if Strip(line) == OpenMark {
      collecting' := true;
      buffer' := [];
    } else if Strip(line) == CloseMark {
      collecting' := false;
      if current.Some? && current.value != "" {
        contents' := contents[current.value := BlockText(buffer)];
      }
      current' := None;
      buffer' := [];
    } else if collecting {
      var idx := Find(line, Indent);
      var contentLine := if idx >= 0 then line[idx + 4..] else LStrip(line);
      buffer' := buffer + [contentLine];
    } else {
      var noComment := StripComment(line);
      if Strip(noComment) != "" {
        paths', stack', current' := EntryLine(paths, stack, current, noComment, before);
      }
    }
  }

  /** `parse_tree_file` over the lines of the file (as iterated, terminator optional). */
  method ParseTreeFile(lines: seq<string>) returns (paths: seq<string>, contents: map<string, string>)
    ensures paths == Parse(lines).paths
    ensures contents == Parse(lines).contents
  {
    paths, contents := [], map[];
    var stack: seq<string> := [];
    var collecting := false;
    var buffer: seq<string> := [];
    var current: Option<string> := None;
    var i := 0;
    while i < |lines|
      invariant 0 <= i <= |lines|
      invariant Run(State(paths, contents, stack, collecting, buffer, current), lines[i..]) == Parse(lines)
    {
      RunAt(State(paths, contents, stack, collecting, buffer, current), lines, i);
      paths, contents, stack, collecting, buffer, current := ParseLine(paths, contents, stack, collecting, buffer, current, lines[i]);
      i := i + 1;
    }
  }

  // ---- Properties of the parser ----

  /** Running over two chunks of lines is running over their concatenation. */
  lemma {:induction false} RunAppend(s: State, a: seq<string>, b: seq<string>)
    ensures Run(s, a + b) == Run(Run(s, a), b)
    decreases |a|
  {
    if a != [] {
      assert (a + b)[0] == a[0];
      assert (a + b)[1..] == a[1..] + b;
      RunAppend(Step(s, a[0]), a[1..], b);
    } else {
      assert a + b == b;
    }
  }

  /** Every content key, and the pending content target, is a path already emitted. */
  ghost predicate KeysEmitted(s: State) {
    && (forall k :: k in s.contents ==> k in s.paths)
    && (s.current.Some? ==> s.current.value in s.paths)
  }

  lemma StepKeepsKeysEmitted(s: State, raw: string)
    requires KeysEmitted(s)
    ensures KeysEmitted(Step(s, raw))
  {
  }

  lemma {:induction false} RunKeepsKeysEmitted(s: State, lines: seq<string>)
    requires KeysEmitted(s)
    ensures KeysEmitted(Run(s, lines))
    decreases |lines|
  {
    if lines != [] {
      StepKeepsKeysEmitted(s, lines[0]);
      RunKeepsKeysEmitted(Step(s, lines[0]), lines[1..]);
    }
  }

  /** Every key of the returned content map is one of the returned paths, the
      one emitted by a file line (fstree.py:51-57, 85-88). */
  lemma ContentKeysArePaths(lines: seq<string>)
    ensures forall k :: k in Parse(lines).contents ==> k in Parse(lines).paths
  {
    RunKeepsKeysEmitted(Init, lines);
  }

  /** While collecting, a line that is not a sentinel is never structure or
      comment: it only adds its stripped text to the buffer (fstree.py:58-62). */
  lemma CollectingLineIsContent(s: State, raw: string)
    requires s.collecting && !IsOpen(Chomp(raw)) && !IsClose(Chomp(raw))
    ensures Step(s, raw) == s.(buffer := s.buffer + [ContentLine(Chomp(raw))])
  {
  }

  /** A `>>>` line starts a fresh buffer in any mode, even inside a block (fstree.py:47-50). */
  lemma OpenClearsBuffer(s: State, raw: string)
    requires IsOpen(Chomp(raw))
    ensures Step(s, raw) == s.(collecting := true, buffer := [])
  {
  }

  /** Lines read while collecting, none of them `<<<`, leave paths, stack and contents alone. */
  lemma {:induction false} CollectingRun(s: State, rest: seq<string>)
    requires s.collecting
    requires forall l :: l in rest ==> !IsClose(Chomp(l))
    ensures Run(s, rest).collecting
    ensures Run(s, rest).contents == s.contents
    ensures Run(s, rest).paths == s.paths
    ensures Run(s, rest).stack == s.stack
    decreases |rest|
  {
    if rest != [] {
      assert rest[0] in rest;
      forall l | l in rest[1..] ensures !IsClose(Chomp(l)) { assert l in rest; }
      CollectingRun(Step(s, rest[0]), rest[1..]);
    }
  }

  /** A content block with no closing `<<<` before the end of input adds no
      entry to the content map and no path (fstree.py:47-62, 89). */
  lemma UnclosedBlockIsDropped(before: seq<string>, open: string, rest: seq<string>)
    requires IsOpen(Chomp(open))
    requires forall l :: l in rest ==> !IsClose(Chomp(l))
    ensures Parse(before + [open] + rest).contents == Parse(before).contents
    ensures Parse(before + [open] + rest).paths == Parse(before).paths
  {
    RunAppend(Init, before + [open], rest);
    RunAppend(Init, before, [open]);
    CollectingRun(Run(Parse(before), [open]), rest);
  }

  /** A line holding only blanks and a comment changes nothing (fstree.py:63-65). */
  lemma BlankLineIgnored(s: State, raw: string)
    requires !s.collecting && !IsOpen(Chomp(raw)) && !IsClose(Chomp(raw))
    requires forall i :: 0 <= i < |Before(Chomp(raw), '#')| ==> IsSpace(Before(Chomp(raw), '#')[i])
    ensures Step(s, raw) == s
  {
    var b := Before(Chomp(raw), '#');
    RStripSpec(b);
  }

  /** Appending a `#` comment to a structural line does not change its effect:
      everything from the first `#` on is discarded (fstree.py:63). */
  lemma CommentIgnored(s: State, line: string, comment: string)
    requires !s.collecting
    requires '#' !in line && '\n' !in line && '\n' !in comment
    requires !IsOpen(line) && !IsClose(line)
    ensures Step(s, line + "#" + comment) == Step(s, line)
  {
    var full := line + "#" + comment;
    ChompNoNewline(line);
    ChompNoNewline(full);
    assert !IsOpen(full) && !IsClose(full) by {
      assert full[|line|] == '#';
      StripKeeps(full, |line|);
      assert '#' !in OpenMark && '#' !in CloseMark;
    }
    assert Before(full, '#') == line by {
      FindCharAppend(line, "#" + comment, '#');
      assert full == line + ("#" + comment);
    }
    SameStructure(s, full, line);
  }

  /** Two lines with the same structural part have the same effect outside a block. */
  lemma SameStructure(s: State, a: string, b: string)
    requires !s.collecting
    requires !IsOpen(Chomp(a)) && !IsClose(Chomp(a)) && !IsOpen(Chomp(b)) && !IsClose(Chomp(b))
    requires StripComment(Chomp(a)) == StripComment(Chomp(b))
    ensures Step(s, a) == Step(s, b)
  {
  }

  lemma ChompNoNewline(s: string)
    requires '\n' !in s
    ensures Chomp(s) == s
  {
    if s != [] { assert s[|s| - 1] in s; }
  }

  /** The glyph column of a line is the width of a glyph-free prefix before a glyph. */
  lemma GlyphAfterPrefix(p: string, t: string)
    requires Tee !in p && Elbow !in p
    requires t != [] && (t[0] == Tee || t[0] == Elbow)
    ensures GlyphColumn(p + t) == |p|
    ensures Depth(p + t) == |p| / 4 + 1
  {
    FindCharAppend(p, t, Tee);
    FindCharAppend(p, t, Elbow);
  }

  /** A glyph in column 8 means depth 3 (8 // 4 + 1). */
  lemma DepthAtColumnEight()
    ensures Depth("        \U{2514}\U{2500}\U{2500} main.py") == 3
  {
    var p := "        ";
    var t := "\U{2514}\U{2500}\U{2500} main.py";
    assert p + t == "        \U{2514}\U{2500}\U{2500} main.py";
    assert Tee !in p && Elbow !in p;
    GlyphAfterPrefix(p, t);
  }

  /** Closing a block holding the pieces of a newline-split text stores that
      text plus one newline (fstree.py:54). */
  lemma BlockTextOfSplit(text: string)
    ensures BlockText(Split(text, '\n')) == text + "\n"
  {
    var pieces := Split(text, '\n');
    JoinSplit(text, '\n');
    assert pieces[|pieces| - 1] in pieces;
    assert !EndsWithChar(pieces[|pieces| - 1], '\n') by {
      var last := pieces[|pieces| - 1];
      if last != [] { assert last[|last| - 1] in last; }
    }
  }

  /** A structural line truncates the ancestor stack to its depth before adding
      the name: afterwards the stack is no longer than depth + 1 (depth for a
      file), its first `depth` entries are the old ones, and exactly one path
      is appended (fstree.py:76-88). */
  lemma EntryLineEffect(s: State, raw: string)
    requires !s.collecting && !IsOpen(Chomp(raw)) && !IsClose(Chomp(raw))
    requires Strip(StripComment(Chomp(raw))) != ""
    ensures var nc := StripComment(Chomp(raw));
            var t := Step(s, raw);
            var depth := Depth(nc);
            var kept := if |s.stack| > depth then s.stack[..depth] else s.stack;
      && |t.stack| <= depth + 1
      && t.stack[..|kept|] == kept
      && |t.paths| == |s.paths| + 1 && t.paths[..|s.paths|] == s.paths
      && t.contents == s.contents && !t.collecting
      && (EndsWithChar(EntryName(nc), Sep) ==>
            && EndsWithChar(t.paths[|s.paths|], Sep)
            && t.current == s.current
            && (RStripChar(EntryName(nc), Sep) != "" <==> t.stack == kept + [RStripChar(EntryName(nc), Sep)])
            && (RStripChar(EntryName(nc), Sep) == "" ==> t.stack == kept)
            && t.paths[|s.paths|] == NormalizeRelpath(t.stack) + [Sep])
      && (!EndsWithChar(EntryName(nc), Sep) ==>
            && |t.stack| <= depth
            && t.stack == kept
            && t.paths[|s.paths|] == NormalizeRelpath(kept + [EntryName(nc)])
            && t.current == Some(t.paths[|s.paths|]))
  {
    var nc := StripComment(Chomp(raw));
    assert Step(s, raw) == EntryStep(s, nc);
    EntryStepEffect(s, nc);
  }

  lemma EntryStepEffect(s: State, nc: string)
    requires !s.collecting
    ensures var t := EntryStep(s, nc);
            var depth := Depth(nc);
            var kept := if |s.stack| > depth then s.stack[..depth] else s.stack;
      && |t.stack| <= depth + 1
      && t.stack[..|kept|] == kept
      && |t.paths| == |s.paths| + 1 && t.paths[..|s.paths|] == s.paths
      && t.contents == s.contents && !t.collecting
      && (EndsWithChar(EntryName(nc), Sep) ==>
            && EndsWithChar(t.paths[|s.paths|], Sep)
            && t.current == s.current
            && (RStripChar(EntryName(nc), Sep) != "" <==> t.stack == kept + [RStripChar(EntryName(nc), Sep)])
            && (RStripChar(EntryName(nc), Sep) == "" ==> t.stack == kept)
            && t.paths[|s.paths|] == NormalizeRelpath(t.stack) + [Sep])
      && (!EndsWithChar(EntryName(nc), Sep) ==>
            && |t.stack| <= depth
            && t.stack == kept
            && t.paths[|s.paths|] == NormalizeRelpath(kept + [EntryName(nc)])
            && t.current == Some(t.paths[|s.paths|]))
  {
    if EndsWithChar(EntryName(nc), Sep) {
      DirEntryStep(s, nc);
    } else {
      FileEntryStep(s, nc);
    }
  }

  lemma DirEntryStep(s: State, nc: string)
    requires !s.collecting && EndsWithChar(EntryName(nc), Sep)
    ensures var t := EntryStep(s, nc);
            var depth := Depth(nc);
            var kept := if |s.stack| > depth then s.stack[..depth] else s.stack;
      && |t.stack| <= depth + 1
      && t.stack[..|kept|] == kept
      && |t.paths| == |s.paths| + 1 && t.paths[..|s.paths|] == s.paths
      && t.contents == s.contents && !t.collecting
      && EndsWithChar(t.paths[|s.paths|], Sep)
      && t.current == s.current
      && (RStripChar(EntryName(nc), Sep) != "" <==> t.stack == kept + [RStripChar(EntryName(nc), Sep)])
      && (RStripChar(EntryName(nc), Sep) == "" ==> t.stack == kept)
      && t.paths[|s.paths|] == NormalizeRelpath(t.stack) + [Sep]
  {
    var depth := Depth(nc);
    var kept := if |s.stack| > depth then s.stack[..depth] else s.stack;
    var part := RStripChar(EntryName(nc), Sep);
    var parts := if part != "" then kept + [part] else kept;
    AppendedLast(s.paths, NormalizeRelpath(parts) + [Sep]);
    assert parts[..|kept|] == kept;
  }

  lemma FileEntryStep(s: State, nc: string)
    requires !s.collecting && !EndsWithChar(EntryName(nc), Sep)
    ensures var t := EntryStep(s, nc);
            var depth := Depth(nc);
            var kept := if |s.stack| > depth then s.stack[..depth] else s.stack;
      && |t.stack| <= depth
      && t.stack == kept && t.stack[..|kept|] == kept
      && |t.paths| == |s.paths| + 1 && t.paths[..|s.paths|] == s.paths
      && t.contents == s.contents && !t.collecting
      && t.paths[|s.paths|] == NormalizeRelpath(kept + [EntryName(nc)])
      && t.current == Some(t.paths[|s.paths|])
  {
    var depth := Depth(nc);
    var kept := if |s.stack| > depth then s.stack[..depth] else s.stack;
    AppendedLast(s.paths, NormalizeRelpath(kept + [EntryName(nc)]));
    assert kept[..|kept|] == kept;
  }

  lemma AppendedLast(xs: seq<string>, x: string)
    ensures |xs + [x]| == |xs| + 1 && (xs + [x])[..|xs|] == xs && (xs + [x])[|xs|] == x
  {
    assert (xs + [x])[..|xs|] == xs;
  }
}
