# fstree, modelled in Dafny

`fstree.py` exports a directory as a `tree`-style text and rebuilds a
directory from such a text. A tree file has one entry per line. A line is a
connector glyph (`├── ` or `└── `) after an indentation of four columns per
level, then a name; a directory name ends in `/`. The first line is the root
directory's name. A file entry may be followed by an inlined content block
between the sentinel lines `>>>` and `<<<`.

This project models the core of that script and proves properties of it:

- **`TreeParser`**: `parse_tree_file`. It is a line-driven state machine with
  an ancestor stack, a collecting flag, a content buffer and the current file
  target. `Step`/`Run` specify it, and `ParseTreeFile` is the loop as the
  script writes it.
- **`TreeDump`**: `dump_structure` with `list_entries` and the recursive
  `walk`, over an in-memory tree (`Node`) instead of the disk. `Walk` writes
  to a `LineWriter` stream and is proved to write exactly `WalkLines`.
- **`RoundTrip`**: what parsing a dump gives back. It gives the paths of
  every listed entry under the root's name, and the content of each file
  directly under the root.
- **`Builder`**: `create_structure`, `get_content_for` and `DEFAULT_CONTENT`.
  They run over an abstract disk: a map from path to file text plus a set of
  directories. It is held by the class `FileSystem` and specified by
  `AfterBuild`.
- **`Excludes`**: `load_excludes`.
- **`Verifier`**: the path-list comparisons of `test_process`.
- **Helpers**:
  - `PyStr` models the Python string methods the script uses;
  - `PathModel` models `os.path.join`, `normpath`, `dirname`, `splitext` and
    `normalize_relpath`;
  - `NameOrder` is the order `sorted` uses on names;
  - `Wrappers` holds `Option`.

The paths are POSIX paths, with `/` as the separator.

Where the code and its own documentation differ, the model follows the code.
The lemmas named below state these differences:

- The root line is not informational. It has no connector, so it gets
  depth 0, and its name stays at the bottom of the ancestor stack. For a
  dump whose names are plain (non-empty, not `.` or `..`, no blanks at
  their ends, no `/`, `#`, `├`, `└` or newline) and whose content blocks, if
  any, belong to files directly under the root and hold no line that strips
  to `>>>` or `<<<`, every parsed path starts with `root/`
  (`RoundTrip.ParsedPathsUnderRoot`), and the first parsed path is `root/`
  itself (`RoundTrip.DumpParseRoundTrip`). The dump
  check compares these paths with `os.walk` paths relative to the root. So
  for such a dump, when no path on disk starts with the root's name and a
  separator, it reports every parsed path as extra
  (`Verifier.DumpCheckReportsEveryParsedPath`). A content block deeper down
  can yield a parsed path outside `root/`: see the `│   ` case below.
- Content is stripped only up to the first four-space run. So a file one
  level down keeps one indentation unit. A `main.py` holding `print(1)` under
  the last directory comes back as `"    print(1)\n"`, not `"print(1)\n"`
  (`RoundTrip.IndentedBlockGainsIndent`).
- Under a `│   ` prefix, the opening `>>>` line does not strip to `>>>`. The
  parser takes that line for a depth-0 file entry and so never starts
  collecting (`RoundTrip.BarPrefixBreaksBlock`); the block's text lines are
  then read as structural lines too. So the content round trip is stated
  only for files directly under the root (`RoundTrip.RootFileContent`).
- An empty file gets no content block. The build then gives it the starter
  text of its extension, so an empty `README.md` comes back as
  `"# Document\n"` (`Builder.EmptyReadmeGetsTemplate`).

## Model

| member | source | states |
|---|---|---|
| PathModel.NormalizeRelpath | fstree.py:31-32 | the result is empty exactly when there are no parts |
| PathModel.NormalizeSimple | fstree.py:31-32 | for plain names, `normalize_relpath` is the names joined with `/` |
| PathModel.Dirname | fstree.py:106 | `os.path.dirname` gives a prefix of the path, and "" for a path without a separator |
| PathModel.DirnameOfJoin | fstree.py:106 | the `dirname` of `h/n`, with `n` holding no separator and `h` non-empty and not ending in one, is `h` |
| PathModel.Extension | fstree.py:114 | `splitext` gives "" or a suffix that starts with `.` and holds no other `.` and no separator |
| PathModel.ExtensionOfDotName | fstree.py:114 | leading dots start no extension: a last component made of dots followed by dot-free text has extension "" |
| PathModel.ExtensionNoDot | fstree.py:114 | a path with no dot has extension "" |
| TreeParser.ParseTreeFile | fstree.py:34-89 | the loop over lines returns exactly the paths and the content map of the specification `Parse` |
| TreeParser.ParseLine | fstree.py:45-88 | one pass of the loop body over a line leaves the loop's variables exactly as `Step` does |
| TreeParser.EntryLineShape | fstree.py:66-75 | the depth is 0 exactly when the line holds no `├`/`└`, otherwise one more than the four-column band of the first glyph; the name has no blanks at its ends and is the stripped text after the first full connector, else after the first glyph, else the whole line |
| TreeParser.ContentLineSpec | fstree.py:59-60 | a collected line is a suffix of the raw line; the cut ends with the first four-space run, or, when there is none, is a run of leading whitespace |
| TreeParser.StripComment | fstree.py:63 | the structural part of a line is the text before its first `#` with exactly its trailing blanks removed: a prefix of that text, not ending in a blank, followed only by blanks |
| TreeParser.GlyphColumn | fstree.py:66-68 | the column of the first `├` or `└`, and -1 exactly when neither occurs |
| TreeParser.FindConnector | fstree.py:70 | the first position of a glyph followed by two `─`, or -1 when there is none |
| TreeParser.RunAppend | fstree.py:45-46 | parsing two chunks of lines in turn is parsing their concatenation |
| TreeParser.ContentKeysArePaths | fstree.py:51-57 | every key of the returned content map is one of the returned paths |
| TreeParser.OpenClearsBuffer | fstree.py:47-50 | a `>>>` line starts collecting with an empty buffer, whatever the state |
| TreeParser.CollectingLineIsContent | fstree.py:58-62 | while collecting, a non-sentinel line only appends its cut text to the buffer |
| TreeParser.CollectingRun | fstree.py:58-62 | lines read while collecting, none of them `<<<`, leave paths, stack and contents unchanged |
| TreeParser.UnclosedBlockIsDropped | fstree.py:47-62 | a block with no closing `<<<` before the end adds no content entry and no path |
| TreeParser.BlankLineIgnored | fstree.py:63-65 | a line that is blank before its first `#` changes nothing |
| TreeParser.CommentIgnored | fstree.py:63 | appending `#` and a comment to a structural line does not change its effect |
| TreeParser.SameStructure | fstree.py:63-88 | outside a block, two lines with the same structural part have the same effect |
| TreeParser.GlyphAfterPrefix | fstree.py:66-69 | after a glyph-free prefix of width w, the glyph column is w and the depth w // 4 + 1 |
| TreeParser.DepthAtColumnEight | fstree.py:69 | a glyph in column 8 gives depth 3 |
| TreeParser.BlockTextOfSplit | fstree.py:54 | closing a block that holds a text's lines stores the text plus one newline |
| TreeParser.EntryLineEffect | fstree.py:76-88 | a structural line cuts the stack to its depth and appends one path; a directory pushes its name without trailing separators exactly when that is non-empty, and appends the joined new stack plus `/`; a file appends the cut stack joined with its name and becomes the content target |
| NameOrder.LexLeTotal | fstree.py:127 | the order `sorted` uses on names is total |
| NameOrder.LexLeTrans | fstree.py:127 | the order is transitive |
| NameOrder.LexLeAntisym | fstree.py:127 | the order is antisymmetric |
| TreeDump.InsertByName | fstree.py:127 | inserting keeps the entries sorted by name and adds exactly one entry |
| TreeDump.SortByName | fstree.py:127 | the result is sorted by name and a permutation of the input |
| TreeDump.WithoutExcluded | fstree.py:127 | an entry is kept exactly when it is in the input and its name is not excluded |
| TreeDump.ListEntries | fstree.py:125-129 | the listing is sorted and holds exactly the children whose names are not excluded; an unlistable directory gives nothing |
| TreeDump.OnlyDirs | fstree.py:141-142 | an entry is kept exactly when it is a directory, and a sorted listing stays sorted |
| TreeDump.Entries | fstree.py:125-142 | the entries walked are sorted by name, and are exactly the children of a listable directory that are not excluded and, under `dirs_only`, are directories |
| TreeDump.Indented | fstree.py:161-162 | one block line per text line; each starts with the prefix and four spaces, and taking them off gives the text line back |
| TreeDump.LineWriter.Write | fstree.py:149 | writing appends exactly one line to the output |
| TreeDump.WriteContent | fstree.py:155-166 | the lines written are exactly the file's content block |
| TreeDump.WriteEntry | fstree.py:144-166 | the lines written for an entry are its line, then its subtree or its block |
| TreeDump.Walk | fstree.py:137-166 | the recursive walk writes exactly `WalkLines` |
| TreeDump.DumpStructure | fstree.py:123-168 | the output is the root name with `/`, then the walk from level 0 with an empty prefix |
| TreeDump.ContentBlockSpec | fstree.py:155-163 | a block appears exactly for a readable file with content wanted and not `dirs_only`, and non-empty text once trailing newlines are stripped; it is `>>>`, each text line indented by prefix plus four spaces, then `<<<`, and its lines joined are that stripped text |
| TreeDump.WalkLinesPrefixed | fstree.py:137-166 | every line the walk writes begins with the prefix it was given |
| TreeDump.DirEntryShape | fstree.py:146-154 | the last entry gets `└── ` and its subtree the continuation of four spaces; other entries get `├── ` and `│   ` |
| TreeDump.MaxLevelCuts | fstree.py:138-139 | from `max_level` on the walk writes nothing; with `max_level` 0 the dump is the root line alone |
| RoundTrip.ReadEntryLine | fstree.py:63-83 | an entry line the walk writes is no sentinel and no comment; the parser reads the depth as the prefix's units plus one, and the name as written |
| RoundTrip.CollectLines | fstree.py:58-62 | while collecting, lines made of four spaces and a piece that is not a block marker are stored as the piece, in order, and nothing else changes |
| RoundTrip.BlockRun | fstree.py:47-62 | reading back a root-level file's block stores its text, trailing newlines replaced by one, under the file's path |
| RoundTrip.DumpParseRoundTrip | fstree.py:34-89 | parsing a dump gives the root path, then every entry the walk listed under the root's name in order; the content map holds the root-level files' texts |
| RoundTrip.ParsedPathsUnderRoot | fstree.py:72-83 | every path parsed from a dump begins with the root's name and `/` |
| RoundTrip.RootFileContent | fstree.py:51-57 | a root-level file with a block is read back as its text, trailing newlines replaced by exactly one |
| RoundTrip.BarPrefixBreaksBlock | fstree.py:47-48 | under `│   ` the opening line is not `>>>`; the parser takes it for a depth-0 file path and empties the stack |
| RoundTrip.IndentedBlockGainsIndent | fstree.py:59-60 | one level down under `    `, `print(1)` is read back as `    print(1)` plus a newline |
| Builder.DefaultFor | fstree.py:113-115 | the text is the table's entry for the lower-cased path's extension; an extension not in the table gives "" |
| Builder.DefaultForNoExtension | fstree.py:113-115 | a name with no dot, such as `Makefile`, gets "" |
| Builder.ExtensionAfter | fstree.py:114 | the extension of `dir/stem.ext`, with a stem not made only of dots and no `.` in `ext`, is `.ext` |
| Builder.DefaultForByExtension | fstree.py:113-115 | for such a path the default is the table's text for `.ext` lower-cased, or "" when the table has none |
| Builder.DefaultForUpperCase | fstree.py:113-115 | the extension is lower-cased first: `Main.PY` gets the Python starter text |
| Builder.DefaultForLastExtension | fstree.py:113-115 | only the last extension counts: `run.sh.BAT` gets the `.bat` text |
| Builder.DefaultForDotFile | fstree.py:113-115 | a leading dot starts no extension: `.md` gets "" |
| Builder.EmptyReadmeGetsTemplate | fstree.py:113-115 | a `README.md` in any directory, with no captured content, is written with the `.md` starter text |
| Builder.GetContentFor | fstree.py:93-97 | the entry for the path itself comes first, then the entry for its normalised form; the result is nothing exactly when neither is present |
| Builder.ContentFor | fstree.py:112-115 | the written text is the captured content when found, otherwise the extension default |
| Builder.AfterMakeDirs | fstree.py:102 | `makedirs` succeeds exactly when no path of the chain is a file, and then adds the whole chain to the directories |
| Builder.AfterWrite | fstree.py:116-117 | writing fails on a directory or under a file; otherwise it sets exactly that file's text |
| Builder.StepGrows | fstree.py:99-121 | a step keeps every file and directory, and never makes a path both |
| Builder.WriteIffAbsentOrOverwrite | fstree.py:109-117 | an existing file is left as it is unless overwriting; an absent file, or any file when overwriting, gets the resolved content |
| Builder.StepDone | fstree.py:99-121 | after a step that succeeded, a directory's whole chain exists, and a file exists under an existing parent |
| Builder.DonePersists | fstree.py:99-121 | what a step made stays made while the disk grows |
| Builder.DoneStepIsNoOp | fstree.py:109-111 | a step whose entry is already in place, without overwriting, changes nothing |
| Builder.BuildDone | fstree.py:99-121 | a build that completes leaves every entry in place |
| Builder.DoneBuildIsNoOp | fstree.py:109-111 | building entries that are all in place, without overwriting, changes nothing |
| Builder.BuildIdempotent | fstree.py:109-111 | a second build of the same paths without overwriting writes nothing and succeeds, whatever content map it is given |
| Builder.FileSystem.MakeDirs | fstree.py:102 | the disk after `makedirs` is `AfterMakeDirs` of the disk before |
| Builder.FileSystem.WriteFile | fstree.py:116-117 | the disk after writing is `AfterWrite` of the disk before |
| Builder.FileSystem.BuildFile | fstree.py:105-121 | the file branch makes a missing parent, then writes only when absent or overwriting |
| Builder.FileSystem.BuildEntry | fstree.py:99-121 | one iteration does what `AfterStep` specifies |
| Builder.FileSystem.CreateStructure | fstree.py:91-121 | the loop does what `AfterBuild` specifies, stopping at the first failure |
| Excludes.FileLines | fstree.py:174 | the lines are non-empty, hold no newline before their last character, and each but the last ends in a newline |
| Excludes.FileLinesConcat | fstree.py:174 | the lines put back together are the file's text |
| Excludes.AddFileNames | fstree.py:173-177 | the file loop adds exactly the non-empty names of the lines, text after `#` cut and blanks stripped |
| Excludes.AddListNames | fstree.py:178-182 | the list loop adds exactly the non-empty stripped items |
| Excludes.LoadExcludes | fstree.py:170-183 | the loops return the defaults, the file's names and the list's items, as `Excluded` states |
| Excludes.ExcludedShape | fstree.py:171-182 | the defaults are always excluded; no excluded name is empty or has blanks at its ends |
| Excludes.FileNameHasNoHash | fstree.py:175 | a name read from the file holds no `#` |
| Excludes.CommentLineAddsNothing | fstree.py:175-176 | a line whose first non-blank character is `#` adds no name |
| Excludes.ListItemExcluded | fstree.py:178-182 | each non-blank item of the list is excluded once stripped |
| Verifier.NotIn | fstree.py:211-212 | the comprehension keeps exactly the paths of the first list that are not in the second |
| Verifier.NotInAppend | fstree.py:211-212 | the comprehension keeps order: it distributes over concatenation |
| Verifier.DumpCompare | fstree.py:211-212 | missing paths are on disk but not in the file; extra paths are in the file but not on disk |
| Verifier.DumpComparePasses | fstree.py:211-217 | the dump check reports nothing exactly when both lists hold the same paths |
| Verifier.TestDump | fstree.py:198-229 | dump mode passes exactly when the parsed paths and the paths on disk are the same set |
| Verifier.DumpCheckReportsEveryParsedPath | fstree.py:207-212 | against relative paths on disk, every path parsed from a dump is reported extra, `root/` first |
| Verifier.MissingOnDisk | fstree.py:191-194 | a joined path is reported exactly when it comes from a listed path and does not exist |
| Verifier.BuildCheck | fstree.py:191-194 | the loop collects exactly `MissingOnDisk` |
| Verifier.TestBuild | fstree.py:189-229 | build mode passes exactly when every parsed path exists under the output directory |
| Verifier.RunPathsNonEmpty | fstree.py:76-88 | the parser never emits an empty path |
| Verifier.JoinEnd | fstree.py:192 | joining keeps a non-empty path's trailing separator, or its absence |
| Verifier.BuildThenTestBuildPasses | fstree.py:189-197 | after building a tree file's paths into a directory, the build check of that file on that directory finds nothing missing |

## Left out

- `install_fstree.py`: it only copies a script and sets permissions.
- `build_cli` and `main` (fstree.py:231-288): argument parsing and dispatch.
- Verbose `print` logging, and the wording of `test_process`'s messages. A
  check's result is the list of reported paths.
- Real I/O:
  - the parser takes the file's lines;
  - `load_excludes` takes the exclude file's text, or `None` when no file is
    named or the path is not a regular file;
  - the dump takes an in-memory `Node` tree;
  - the builder and the build check take a `Disk` value.
- File handling:
  - UTF-8 decoding errors while reading a tree or exclude file are left out;
  - an unreadable file in the dump is a `File` without text;
  - an unlistable directory is a `Dir` with `listable` false;
  - symbolic links are left out.
- Text-mode reading translates `\r` and `\r\n` into `\n`. That translation
  is left out: lines are split on `\n` only.
- The root line's name in the dump is the `Node`'s name. Deriving it with
  `basename(normpath(base_dir))` is left out.
- The `os.walk` traversal of dump mode (fstree.py:199-209) and its
  level-counting by string replacement are left out. The paths it would
  collect are an input.
- The connector regular expression is modelled as the first glyph followed
  by two `─`, then blanks skipped. This is exact for lines without a newline,
  which is what the parser sees after chomping.
- `PyStr.Lower`: lower-cases ASCII letters only. Python's `str.lower` also
  maps other letters, some of them into ASCII.
- `PathModel.NormPath`: POSIX rules with `/` only. With that separator, the
  two separator-replaced keys of `get_content_for` equal the path itself.
- `Builder.AfterMakeDirs`: a failing `makedirs` is modelled as leaving the
  disk unchanged. The real call may already have created some upper
  directories. The only failure modelled is a path of the chain being a
  file; permission and other OS errors are left out.
- `Builder.WriteIffAbsentOrOverwrite`: excludes a target that is its own
  parent (`/`).
- `Builder.BuildIdempotent` and `Verifier.BuildThenTestBuildPasses`: assume
  the starting disk has no path that is both a file and a directory.
- `RoundTrip.DumpParseRoundTrip`: holds for trees whose names are plain.
  - No blank ends, `#`, connector glyph, separator or newline in a name.
  - Files below the root must get no content block.
  - No content line may strip to a sentinel.

  The lemmas on content behaviour show what happens otherwise.
- `RoundTrip.RootFileContent`: states the content round trip only for files
  directly under the root, whose name no other root entry shares.
