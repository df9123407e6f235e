/**
 * The POSIX path functions fstree.py uses: `os.path.join`, `os.path.normpath`,
 * `os.path.dirname`, `os.path.splitext`, and the tool's own
 * `normalize_relpath`. The separator is fixed to '/'.
 */
module PathModel {
  import opened PyStr

  const Sep: char := '/'

  /** `os.path.join(a, *parts)`: an absolute part restarts the path. */
  function PyJoin(a: string, parts: seq<string>): string
    decreases |parts|
  {
    if parts == [] then a
    else
      var b := parts[0];
      var next := if b != [] && b[0] == Sep then b
                  else if a == [] || a[|a| - 1] == Sep then a + b
                  else a + [Sep] + b;
      PyJoin(next, parts[1..])
  }

  /** One step of `normpath`'s component loop: `.`/empty dropped, `..` cancels one level. */
  function NormComps(comps: seq<string>, acc: seq<string>, absolute: bool): seq<string>
    decreases |comps|
  {
    if comps == [] then acc
    else
      var c := comps[0];
      if c == "" || c == "." then NormComps(comps[1..], acc, absolute)
      else if c != ".." || (!absolute && acc == []) || (acc != [] && acc[|acc| - 1] == "..") then
        NormComps(comps[1..], acc + [c], absolute)
      else if acc != [] then NormComps(comps[1..], acc[..|acc| - 1], absolute)
      else NormComps(comps[1..], acc, absolute)
  }

  /** Number of leading separators `normpath` keeps (POSIX keeps exactly two). */
  function InitialSlashes(p: string): nat {
    if p != [] && p[0] == Sep then
      if |p| >= 2 && p[1] == Sep && !(|p| >= 3 && p[2] == Sep) then 2 else 1
    else 0
  }

  /** `os.path.normpath(p)` on POSIX. */
  function NormPath(p: string): (r: string)
    ensures r != ""
  {
    if p == "" then "."
    else
      var init := InitialSlashes(p);
      var comps := NormComps(Split(p, Sep), [], init > 0);
      var r := seq(init, _ => Sep) + Join(comps, [Sep]);
      if r == "" then "." else r
  }

  /** `normalize_relpath(parts)` (fstree.py:31-32): "" for no parts, else the normalised join. */
  function NormalizeRelpath(parts: seq<string>): (r: string)
    ensures r == "" <==> parts == []
  {
    if parts == [] then "" else NormPath(PyJoin(parts[0], parts[1..]))
  }

  /** A single path component as a directory listing returns it. */
  predicate SimpleName(n: string) {
    n != "" && n != "." && n != ".." && Sep !in n
  }

  /** The plain `/`-joined relative path of a sequence of components. */
  function JoinPath(parts: seq<string>): string {
    Join(parts, [Sep])
  }

  /** On simple names, `normalize_relpath` is plain `/`-joining. */
  lemma NormalizeSimple(parts: seq<string>)
    requires parts != []
    requires forall n :: n in parts ==> SimpleName(n)
    ensures NormalizeRelpath(parts) == JoinPath(parts)
  {
    var a := parts[0];
    assert a in parts;
    assert a[0] in a && a[|a| - 1] in a;
    PyJoinSimple(a, parts[1..]);
    assert [a] + parts[1..] == parts;
    var j := JoinPath(parts);
    SplitJoin(parts);
    NormCompsSimple(parts, []);
    assert j != [] && j[0] != Sep by { JoinStart(parts); }
    assert InitialSlashes(j) == 0;
    assert NormComps(Split(j, Sep), [], false) == parts;
    assert seq(0, _ => Sep) + Join(parts, [Sep]) == j;
    assert NormPath(j) == j;
  }

  lemma JoinHead(a: string, rest: seq<string>)
    ensures Join([a] + rest, [Sep]) == if rest == [] then a else a + [Sep] + Join(rest, [Sep])
  {
    if rest != [] { assert ([a] + rest)[1..] == rest; }
  }

  lemma {:induction false} PyJoinSimple(a: string, parts: seq<string>)
    requires a != [] && a[|a| - 1] != Sep && (a[0] != Sep)
    requires forall n :: n in parts ==> SimpleName(n)
    ensures PyJoin(a, parts) == Join([a] + parts, [Sep])
    decreases |parts|
  {
    if parts != [] {
      var b := parts[0];
      assert b in parts;
      var next := a + [Sep] + b;
      PyJoinStepSimple(a, parts);
      forall n | n in parts[1..] ensures SimpleName(n) { assert n in parts; }
      PyJoinSimple(next, parts[1..]);
      JoinShift(a, parts);
    }
  }

  /** One component joined under a directory without a trailing separator. */
  lemma PyJoinStepSimple(a: string, parts: seq<string>)
    requires a != [] && a[|a| - 1] != Sep && a[0] != Sep
    requires parts != [] && SimpleName(parts[0])
    ensures var next := a + [Sep] + parts[0];
      && PyJoin(a, parts) == PyJoin(next, parts[1..])
      && next != [] && next[|next| - 1] != Sep && next[0] != Sep
  {
    var b := parts[0];
    var next := a + [Sep] + b;
    assert next[|next| - 1] == b[|b| - 1];
    assert b[|b| - 1] != Sep by { assert b[|b| - 1] in b; }
  }

  /** Joining `a` then `parts` is joining `a/parts[0]` then the rest. */
  lemma JoinShift(a: string, parts: seq<string>)
    requires parts != []
    ensures Join([a] + parts, [Sep]) == Join([a + [Sep] + parts[0]] + parts[1..], [Sep])
  {
    assert parts == [parts[0]] + parts[1..];
    JoinShiftCons(a, parts[0], parts[1..]);
  }

  lemma JoinShiftCons(a: string, b: string, rest: seq<string>)
    ensures Join([a] + ([b] + rest), [Sep]) == Join([a + [Sep] + b] + rest, [Sep])
  {
    JoinHead(a, [b] + rest);
    JoinHead(b, rest);
    JoinHead(a + [Sep] + b, rest);
    if rest != [] {
      var j := Join(rest, [Sep]);
      assert a + [Sep] + (b + [Sep] + j) == a + [Sep] + b + [Sep] + j;
    }
  }

  lemma JoinStart(parts: seq<string>)
    requires parts != [] && parts[0] != [] && parts[0][0] != Sep
    ensures JoinPath(parts) != [] && JoinPath(parts)[0] == parts[0][0]
  {
    JoinHead(parts[0], parts[1..]);
    assert [parts[0]] + parts[1..] == parts;
  }

  /** Splitting a join of separator-free parts gives the parts back. */
  lemma {:induction false} SplitJoin(parts: seq<string>)
    requires parts != []
    requires forall n :: n in parts ==> Sep !in n
    ensures Split(JoinPath(parts), Sep) == parts
    decreases |parts|
  {
    var a := parts[0];
    assert a in parts;
    JoinHead(a, parts[1..]);
    assert [a] + parts[1..] == parts;
    if |parts| == 1 {
      assert FindChar(a, Sep) < 0;
    } else {
      forall n | n in parts[1..] ensures Sep !in n { assert n in parts; }
      SplitJoin(parts[1..]);
      SplitCons(a, JoinPath(parts[1..]));
    }
  }

  lemma SplitCons(a: string, t: string)
    requires Sep !in a
    ensures Split(a + [Sep] + t, Sep) == [a] + Split(t, Sep)
  {
    var j := a + [Sep] + t;
    FindCharAppend(a, [Sep] + t, Sep);
    assert j == a + ([Sep] + t);
    assert FindChar(j, Sep) == |a|;
    assert j[..|a|] == a;
    assert j[|a| + 1..] == t;
  }

  lemma {:induction false} NormCompsSimple(comps: seq<string>, acc: seq<string>)
    requires forall n :: n in comps ==> SimpleName(n)
    ensures NormComps(comps, acc, false) == acc + comps
    decreases |comps|
  {
    if comps != [] {
      assert comps[0] in comps;
      forall n | n in comps[1..] ensures SimpleName(n) { assert n in comps; }
      NormCompsSimple(comps[1..], acc + [comps[0]]);
      assert acc + [comps[0]] + comps[1..] == acc + comps;
    }
  }

  /** `os.path.dirname(p)` on POSIX. */
  function Dirname(p: string): (r: string)
    ensures |r| <= |p| && r == p[..|r|]
    ensures Sep !in p ==> r == ""
  {
    var i := RFindChar(p, Sep) + 1;
    var head := p[..i];
    if head != "" && exists k :: 0 <= k < |head| && head[k] != Sep then RStripChar(head, Sep) else head
  }

  /** `os.path.splitext(p)[1]`: the extension of the last component, dot included. */
  function Extension(p: string): (r: string)
    ensures r == "" || (r[0] == '.' && |r| <= |p| && r == p[|p| - |r|..])
    ensures r != "" ==> Sep !in r && '.' !in r[1..]
  {
    var sepIndex := RFindChar(p, Sep);
    var dotIndex := RFindChar(p, '.');
    if dotIndex > sepIndex && exists k :: sepIndex + 1 <= k < dotIndex && p[k] != '.' then
      var r := p[dotIndex..];
      assert forall j :: 1 <= j < |r| ==> r[j] == p[dotIndex + j];
      r
    else ""
  }

  /** The last separator is the one ending a directory part that is empty
      or ends with a separator. */
  lemma SepIndexAfter(head: string, tail: string)
    requires head == [] || head[|head| - 1] == Sep
    requires Sep !in tail
    ensures RFindChar(head + tail, Sep) == |head| - 1
  {
    if head == [] {
      assert head + tail == tail;
      RFindCharNone(tail, Sep);
    } else {
      var h := head[..|head| - 1];
      assert head + tail == h + [Sep] + tail;
      RFindCharLast(h, Sep, tail);
    }
  }

  /** `dirname` of a path made of a directory part not ending in a separator,
      a separator and a last component is that directory part. */
  lemma DirnameOfJoin(h: string, n: string)
    requires h != [] && h[|h| - 1] != Sep && Sep !in n
    ensures Dirname(h + [Sep] + n) == h
  {
    var p := h + [Sep] + n;
    RFindCharLast(h, Sep, n);
    assert p[..|h| + 1] == h + [Sep];
    assert (h + [Sep])[|h| - 1] != Sep;
    assert (h + [Sep])[..|h|] == h;
  }

  /** `splitext` skips leading dots: a last component made of dots followed
      by text holding no dot has no extension. */
  lemma ExtensionOfDotName(head: string, dots: string, rest: string)
    requires head == [] || head[|head| - 1] == Sep
    requires dots != [] && forall i :: 0 <= i < |dots| ==> dots[i] == '.'
    requires Sep !in rest && '.' !in rest
    ensures Extension(head + dots + rest) == ""
  {
    DotNameParts(head, dots, rest);
    var d := head + dots[..|dots| - 1];
    SepIndexAfter(head, dots + rest);
    RFindCharLast(d, '.', rest);
    ExtensionNone(head + dots + rest, |head| - 1, |d|);
  }

  lemma DotNameParts(head: string, dots: string, rest: string)
    requires dots != [] && forall i :: 0 <= i < |dots| ==> dots[i] == '.'
    requires Sep !in rest
    ensures var p := head + dots + rest;
            var d := head + dots[..|dots| - 1];
      && p == head + (dots + rest) && Sep !in dots + rest
      && p == d + ['.'] + rest
      && forall k :: |head| <= k < |d| ==> p[k] == '.'
  {
    var p := head + dots + rest;
    forall i | 0 <= i < |dots + rest| ensures (dots + rest)[i] != Sep {
      if i < |dots| { assert (dots + rest)[i] == dots[i]; } else { assert (dots + rest)[i] == rest[i - |dots|]; }
    }
    var d := head + dots[..|dots| - 1];
    assert p == d + ['.'] + rest;
    forall k | |head| <= k < |d| ensures p[k] == '.' {
      assert p[k] == dots[k - |head|];
    }
  }

  /** `splitext` gives no extension when only dots lie between the last
      separator and the last dot. */
  lemma ExtensionNone(p: string, sepIndex: int, dotIndex: int)
    requires RFindChar(p, Sep) == sepIndex && RFindChar(p, '.') == dotIndex
    requires forall k :: sepIndex + 1 <= k < dotIndex ==> p[k] == '.'
    ensures Extension(p) == ""
  {
  }

  /** A path with no dot has no extension. */
  lemma ExtensionNoDot(p: string)
    requires '.' !in p
    ensures Extension(p) == ""
  {
    RFindCharNone(p, '.');
  }
}
