/**
 * `load_excludes` (fstree.py:170-183): the names the dump leaves out. The
 * defaults always apply; an exclude file adds one name per line (text after
 * `#` is a comment), and a comma-separated list adds one name per item.
 * The file is given by its text, or `None` when no file was named or the
 * named path is not a regular file.
 */
module Excludes {
  import opened Wrappers
  import opened PyStr

  /** `DEFAULT_EXCLUDES` (fstree.py:29). */
  const DefaultExcludes: set<string> := {".git", "node_modules", "vendor", "__pycache__"}

  /** The lines `for ln in f` yields from a file in text mode: each keeps its
      '\n', and a last line without one is yielded as it is. */
  function FileLines(text: string): (r: seq<string>)
    ensures forall i :: 0 <= i < |r| ==> r[i] != ""
    ensures forall i :: 0 <= i < |r| ==> '\n' !in r[i][..|r[i]| - 1]
    ensures forall i :: 0 <= i < |r| - 1 ==> EndsWithChar(r[i], '\n')
    decreases |text|
  {
    if text == "" then []
    else
      var k := FindChar(text, '\n');
      if k < 0 then [text]
      else
        var rest := FileLines(text[k + 1..]);
        FirstLineShape(text, k);
        [text[..k + 1]] + rest
  }

  /** The first line, up to the first newline, holds no other newline. */
  lemma FirstLineShape(text: string, k: int)
    requires 0 <= k < |text| && text[k] == '\n' && '\n' !in text[..k]
    ensures var ln := text[..k + 1]; ln != "" && '\n' !in ln[..|ln| - 1] && EndsWithChar(ln, '\n')
  {
    assert text[..k + 1][..k] == text[..k];
  }

  /** Concatenation of a sequence of strings. */
  function Concat(parts: seq<string>): string {
    if parts == [] then "" else parts[0] + Concat(parts[1..])
  }

  lemma ConcatCons(h: string, rest: seq<string>)
    ensures Concat([h] + rest) == h + Concat(rest)
  {
    assert ([h] + rest)[0] == h && ([h] + rest)[1..] == rest;
  }

  lemma ConcatStep(text: string, k: nat, lines: seq<string>)
    requires k < |text| && Concat(lines) == text[k + 1..]
    ensures Concat([text[..k + 1]] + lines) == text
  {
    ConcatCons(text[..k + 1], lines);
    assert text[..k + 1] + text[k + 1..] == text;
  }

  /** The lines put back together are the file. */
  lemma {:induction false} FileLinesConcat(text: string)
    ensures Concat(FileLines(text)) == text
    decreases |text|
  {
    if text != "" {
      var k := FindChar(text, '\n');
      if k >= 0 {
        var rest := text[k + 1..];
        var lines := FileLines(rest);
        assert FileLines(text) == [text[..k + 1]] + lines;
        FileLinesConcat(rest);
        ConcatStep(text, k, lines);
      } else {
        assert FileLines(text) == [text];
        ConcatCons(text, []);
      }
    }
  }

  /** The name a line of the exclude file contributes: the text before the
      first `#`, stripped (fstree.py:175). */
  function LineName(ln: string): string {
    Strip(Before(ln, '#'))
  }

  /** The name a comma-separated item contributes (fstree.py:180). */
  function ItemName(item: string): string {
    Strip(item)
  }

  /** The names the file's lines add: every non-empty line name. */
  function FileNames(lines: seq<string>): set<string> {
    set ln | ln in lines && LineName(ln) != "" :: LineName(ln)
  }

  /** The names the list adds: every non-empty stripped item. */
  function ListNames(items: seq<string>): set<string> {
    set item | item in items && ItemName(item) != "" :: ItemName(item)
  }

  /** The set `load_excludes` returns, all at once. */
  function Excluded(excludeList: Option<string>, fileText: Option<string>): set<string> {
    DefaultExcludes
    + (if fileText.Some? then FileNames(FileLines(fileText.value)) else {})
    + (if excludeList.Some? && excludeList.value != "" then ListNames(Split(excludeList.value, ',')) else {})
  }

  lemma FileNamesSnoc(lines: seq<string>, ln: string)
    ensures FileNames(lines + [ln]) == FileNames(lines) + (if LineName(ln) != "" then {LineName(ln)} else {})
  {
    var l := lines + [ln];
    forall x | x in FileNames(l) ensures x in FileNames(lines) || (LineName(ln) != "" && x == LineName(ln)) {
      var y :| y in l && LineName(y) != "" && LineName(y) == x;
      if y != ln { assert y in lines; }
    }
    assert ln in l;
    forall y | y in lines ensures y in l { }
  }

  lemma ListNamesSnoc(items: seq<string>, item: string)
    ensures ListNames(items + [item]) == ListNames(items) + (if ItemName(item) != "" then {ItemName(item)} else {})
  {
    var l := items + [item];
    forall x | x in ListNames(l) ensures x in ListNames(items) || (ItemName(item) != "" && x == ItemName(item)) {
      var y :| y in l && ItemName(y) != "" && ItemName(y) == x;
      if y != item { assert y in items; }
    }
    assert item in l;
    forall y | y in items ensures y in l { }
  }

  lemma FileNamesStep(lines: seq<string>, i: nat)
    requires i < |lines|
    ensures FileNames(lines[..i + 1]) == FileNames(lines[..i]) + (if LineName(lines[i]) != "" then {LineName(lines[i])} else {})
  {
    assert lines[..i + 1] == lines[..i] + [lines[i]];
    FileNamesSnoc(lines[..i], lines[i]);
  }

  lemma ListNamesStep(items: seq<string>, i: nat)
    requires i < |items|
    ensures ListNames(items[..i + 1]) == ListNames(items[..i]) + (if ItemName(items[i]) != "" then {ItemName(items[i])} else {})
  {
    assert items[..i + 1] == items[..i] + [items[i]];
    ListNamesSnoc(items[..i], items[i]);
  }

  /** The file loop of `load_excludes` (fstree.py:173-177): each line's name,
      when non-empty, is added. */
  method AddFileNames(start: set<string>, lines: seq<string>) returns (excludes: set<string>)
    ensures excludes == start + FileNames(lines)
  {
    excludes := start;
    for i := 0 to |lines|
      invariant excludes == start + FileNames(lines[..i])
    {
      var name := Strip(Before(lines[i], '#'));
      FileNamesStep(lines, i);
      if name != "" {
        excludes := excludes + {name};
      }
    }
    assert lines[..|lines|] == lines;
  }

  /** The list loop of `load_excludes` (fstree.py:178-182): each stripped
      item, when non-empty, is added. */
  method AddListNames(start: set<string>, items: seq<string>) returns (excludes: set<string>)
    ensures excludes == start + ListNames(items)
  {
    excludes := start;
    for i := 0 to |items|
      invariant excludes == start + ListNames(items[..i])
    {
      var n := Strip(items[i]);
      ListNamesStep(items, i);
      if n != "" {
        excludes := excludes + {n};
      }
    }
    assert items[..|items|] == items;
  }

  /** `load_excludes(exclude_list, exclude_file)`: starts from the defaults,
      adds the file's names line by line, then the list's items. */
  method LoadExcludes(excludeList: Option<string>, fileText: Option<string>) returns (excludes: set<string>)
    ensures excludes == Excluded(excludeList, fileText)
  {
    excludes := DefaultExcludes;
    if fileText.Some? {
      excludes := AddFileNames(excludes, FileLines(fileText.value));
    }
    if excludeList.Some? && excludeList.value != "" {
      excludes := AddListNames(excludes, Split(excludeList.value, ','));
    }
  }

  // ---- Properties ----

  /** `strip()` is idempotent. */
  lemma StripTwice(s: string)
    ensures Strip(Strip(s)) == Strip(s)
  {
    StripSpec(s);
    StripNoop(Strip(s));
  }

  /** The defaults are always present, and every excluded name is non-empty
      and already stripped, so it can be matched against an entry name as is. */
  lemma ExcludedShape(excludeList: Option<string>, fileText: Option<string>)
    ensures var e := Excluded(excludeList, fileText);
      && DefaultExcludes <= e
      && "" !in e
      && forall x :: x in e ==> Strip(x) == x
  {
    DefaultsStripped();
    FileNamesStripped(if fileText.Some? then FileLines(fileText.value) else []);
    ListNamesStripped(if excludeList.Some? then Split(excludeList.value, ',') else []);
  }

  lemma DefaultsStripped()
    ensures forall x :: x in DefaultExcludes ==> x != "" && Strip(x) == x
  {
    StripNoop(".git");
    StripNoop("node_modules");
    StripNoop("vendor");
    StripNoop("__pycache__");
  }

  lemma FileNamesStripped(lines: seq<string>)
    ensures forall x :: x in FileNames(lines) ==> x != "" && Strip(x) == x
  {
    forall x | x in FileNames(lines) ensures x != "" && Strip(x) == x {
      var ln :| ln in lines && LineName(ln) != "" && LineName(ln) == x;
      StripTwice(Before(ln, '#'));
    }
  }

  lemma ListNamesStripped(items: seq<string>)
    ensures forall x :: x in ListNames(items) ==> x != "" && Strip(x) == x
  {
    forall x | x in ListNames(items) ensures x != "" && Strip(x) == x {
      var item :| item in items && ItemName(item) != "" && ItemName(item) == x;
      StripTwice(item);
    }
  }

  /** A name read from the file never holds a `#`: the comment is cut first. */
  lemma FileNameHasNoHash(text: string, x: string)
    requires x in FileNames(FileLines(text))
    ensures '#' !in x
  {
    var ln :| ln in FileLines(text) && LineName(ln) != "" && LineName(ln) == x;
    var b := Before(ln, '#');
    LStripSpec(b);
    RStripSpec(LStrip(b));
    assert x == b[|b| - |LStrip(b)|..][..|x|];
    forall i | 0 <= i < |x| ensures x[i] != '#' {
      assert x[i] == b[|b| - |LStrip(b)| + i];
    }
  }

  /** A line whose first non-blank character is `#` is a comment and adds nothing. */
  lemma CommentLineAddsNothing(blanks: string, rest: string)
    requires forall i :: 0 <= i < |blanks| ==> IsSpace(blanks[i])
    ensures LineName(blanks + "#" + rest) == ""
  {
    var ln := blanks + "#" + rest;
    assert '#' !in blanks by {
      forall i | 0 <= i < |blanks| ensures blanks[i] != '#' {
        assert IsSpace(blanks[i]);
      }
    }
    assert ln[|blanks|] == '#';
    assert Before(ln, '#') == blanks by {
      var k := FindChar(ln, '#');
      assert ln[..|blanks|] == blanks;
      assert k >= 0 && k <= |blanks|;
    }
    StripSpec(blanks);
  }

  /** Every non-blank item of the list is excluded, stripped, whatever the file says. */
  lemma ListItemExcluded(excludeList: string, fileText: Option<string>, item: string)
    requires item in Split(excludeList, ',') && Strip(item) != ""
    ensures Strip(item) in Excluded(Some(excludeList), fileText)
  {
    assert Strip(item) in ListNames(Split(excludeList, ','));
  }
}
