/**
 * Models of the Python `str` methods that fstree.py relies on: `isspace`,
 * `strip`/`lstrip`/`rstrip`, `find`, `split`, `join`, `endswith` and `lower`.
 * Strings are sequences of Unicode code points, as in Python 3.
 */
module PyStr {

  /** `c.isspace()`: the characters Python treats as whitespace. */
  predicate IsSpace(c: char) {
    || '\t' <= c <= '\r'
    || '\U{1C}' <= c <= ' '
    || c == '\U{85}' || c == '\U{A0}' || c == '\U{1680}'
    || '\U{2000}' <= c <= '\U{200A}'
    || c == '\U{2028}' || c == '\U{2029}' || c == '\U{202F}' || c == '\U{205F}' || c == '\U{3000}'
  }

  /** `s.lstrip()`: drops leading whitespace. */
  function LStrip(s: string): (r: string)
    ensures |r| <= |s|
  {
    if s != [] && IsSpace(s[0]) then LStrip(s[1..]) else s
  }

  /** `s.rstrip()`: drops trailing whitespace. */
  function RStrip(s: string): (r: string)
    ensures |r| <= |s|
  {
    if s != [] && IsSpace(s[|s| - 1]) then RStrip(s[..|s| - 1]) else s
  }

  /** `s.strip()`: drops whitespace at both ends. */
  function Strip(s: string): (r: string)
    ensures |r| <= |s|
  {
    RStrip(LStrip(s))
  }

  /** What `lstrip()` removes is a run of whitespace, and it stops at a non-blank. */
  lemma {:induction false} LStripSpec(s: string)
    ensures var r := LStrip(s);
      && r == s[|s| - |r|..]
      && (r == [] || !IsSpace(r[0]))
      && forall i :: 0 <= i < |s| - |r| ==> IsSpace(s[i])
    decreases |s|
  {
    if s != [] && IsSpace(s[0]) {
      LStripSpec(s[1..]);
    }
  }

  /** What `rstrip()` removes is a run of whitespace, and it stops at a non-blank. */
  lemma {:induction false} RStripSpec(s: string)
    ensures var r := RStrip(s);
      && r == s[..|r|]
      && (r == [] || !IsSpace(r[|r| - 1]))
      && forall i :: |r| <= i < |s| ==> IsSpace(s[i])
    decreases |s|
  {
    if s != [] && IsSpace(s[|s| - 1]) {
      RStripSpec(s[..|s| - 1]);
    }
  }

  /** `strip()` leaves non-blank ends, and is empty exactly for an all-blank string. */
  lemma StripSpec(s: string)
    ensures var r := Strip(s);
      && (r == [] || (!IsSpace(r[0]) && !IsSpace(r[|r| - 1])))
      && (r == [] <==> forall i :: 0 <= i < |s| ==> IsSpace(s[i]))
  {
    var l := LStrip(s);
    LStripSpec(s);
    RStripSpec(l);
    var r := RStrip(l);
    if r != [] {
      assert r[0] == l[0];
    } else {
      assert l == [];
    }
  }

  /** `s.rstrip(c)` for a single character `c`. */
  function RStripChar(s: string, c: char): (r: string)
    ensures |r| <= |s| && r == s[..|r|]
    ensures r == [] || r[|r| - 1] != c
    ensures forall i :: |r| <= i < |s| ==> s[i] == c
  {
    if s != [] && s[|s| - 1] == c then RStripChar(s[..|s| - 1], c) else s
  }

  /** `s.endswith(c)` for a single character `c`. */
  predicate EndsWithChar(s: string, c: char) {
    s != [] && s[|s| - 1] == c
  }

  /** `s.find(c)` for a single character: the first index of `c`, or -1. */
  function FindChar(s: string, c: char): (r: int)
    ensures -1 <= r < |s|
    ensures r >= 0 ==> s[r] == c && c !in s[..r]
    ensures r < 0 <==> c !in s
  {
    FindCharFrom(s, c, 0)
  }

  function FindCharFrom(s: string, c: char, i: nat): (r: int)
    requires i <= |s|
    requires c !in s[..i]
    ensures -1 <= r < |s|
    ensures r >= 0 ==> i <= r && s[r] == c && c !in s[..r]
    ensures r < 0 <==> c !in s
    decreases |s| - i
  {
    if i == |s| then
      assert s[..i] == s;
      -1
    else if s[i] == c then i
    else
      assert s[..i + 1] == s[..i] + [s[i]];
      FindCharFrom(s, c, i + 1)
  }

  /** `s.rfind(c)` for a single character: the last index of `c`, or -1. */
  function RFindChar(s: string, c: char): (r: int)
    ensures -1 <= r < |s|
    ensures r >= 0 ==> s[r] == c
    ensures forall j :: r < j < |s| ==> s[j] != c
  {
    if s == [] then -1
    else if s[|s| - 1] == c then |s| - 1
    else RFindChar(s[..|s| - 1], c)
  }

  /** Is `pat` found in `s` at index `j`? */
  predicate OccursAt(s: string, pat: string, j: int) {
    0 <= j && j + |pat| <= |s| && s[j..j + |pat|] == pat
  }

  /** `s.find(pat)`: the first index at which `pat` occurs in `s`, or -1. */
  function Find(s: string, pat: string): (r: int)
    ensures -1 <= r
    ensures r >= 0 ==> OccursAt(s, pat, r)
    ensures r >= 0 ==> forall j :: 0 <= j < r ==> !OccursAt(s, pat, j)
    ensures r < 0 ==> forall j :: !OccursAt(s, pat, j)
  {
    FindFrom(s, pat, 0)
  }

  function FindFrom(s: string, pat: string, i: nat): (r: int)
    requires forall j :: 0 <= j < i ==> !OccursAt(s, pat, j)
    ensures -1 <= r
    ensures r >= 0 ==> i <= r && OccursAt(s, pat, r)
    ensures r >= 0 ==> forall j :: 0 <= j < r ==> !OccursAt(s, pat, j)
    ensures r < 0 ==> forall j :: !OccursAt(s, pat, j)
    decreases |s| - i
  {
    if i + |pat| > |s| then -1
    else if s[i..i + |pat|] == pat then i
    else FindFrom(s, pat, i + 1)
  }

  /** `s.split(c, 1)[0]`: the text before the first `c` (all of `s` if none). */
  function Before(s: string, c: char): (r: string)
    ensures |r| <= |s| && r == s[..|r|]
    ensures c !in r
    ensures |r| < |s| ==> s[|r|] == c
  {
    var k := FindChar(s, c);
    if k < 0 then s else s[..k]
  }

  /** `sep.join(parts)`. */
  function Join(parts: seq<string>, sep: string): string
  {
    if |parts| == 0 then ""
    else if |parts| == 1 then parts[0]
    else parts[0] + sep + Join(parts[1..], sep)
  }

  /** `s.split(c)` for a single-character separator. */
  function Split(s: string, c: char): (r: seq<string>)
    ensures |r| >= 1
    ensures forall piece :: piece in r ==> c !in piece
    decreases |s|
  {
    var k := FindChar(s, c);
    if k < 0 then [s]
    else [s[..k]] + Split(s[k + 1..], c)
  }

  /** Joining the pieces of a split with the separator gives the string back. */
  lemma {:induction false} JoinSplit(s: string, c: char)
    ensures Join(Split(s, c), [c]) == s
    decreases |s|
  {
    var k := FindChar(s, c);
    if k < 0 {
      assert Split(s, c) == [s];
    } else {
      var head, tail := s[..k], s[k + 1..];
      var pieces := Split(tail, c);
      assert Split(s, c) == [head] + pieces;
      JoinSplit(tail, c);
      JoinSplitStep(s, c, k, pieces);
    }
  }

  lemma JoinSplitStep(s: string, c: char, k: nat, pieces: seq<string>)
    requires k < |s| && s[k] == c
    requires |pieces| >= 1 && Join(pieces, [c]) == s[k + 1..]
    ensures Join([s[..k]] + pieces, [c]) == s
  {
    JoinCons(s[..k], pieces, [c]);
    SliceAround(s, k);
  }

  /** A string is the text before position `k`, the character at `k`, and the rest. */
  lemma SliceAround(s: string, k: nat)
    requires k < |s|
    ensures s[..k] + [s[k]] + s[k + 1..] == s
  {
  }

  lemma JoinCons(head: string, rest: seq<string>, sep: string)
    requires |rest| >= 1
    ensures Join([head] + rest, sep) == head + sep + Join(rest, sep)
  {
    assert ([head] + rest)[1..] == rest;
  }

  /** `s.lower()`, restricted to the ASCII letters. */
  function Lower(s: string): (r: string)
    ensures |r| == |s|
    ensures forall i :: 0 <= i < |s| ==> r[i] == (if 'A' <= s[i] <= 'Z' then (s[i] as int + 32) as char else s[i])
  {
    if s == [] then ""
    else [if 'A' <= s[0] <= 'Z' then (s[0] as int + 32) as char else s[0]] + Lower(s[1..])
  }

  // ---- Facts used by the round-trip proofs ----

  /** A non-blank character survives `strip()`. */
  lemma StripKeeps(s: string, k: nat)
    requires k < |s| && !IsSpace(s[k])
    ensures s[k] in Strip(s)
  {
    var l := LStrip(s);
    LStripSpec(s);
    var off := |s| - |l|;
    assert k >= off;
    assert l[k - off] == s[k];
    var r := RStrip(l);
    RStripSpec(l);
    assert k - off < |r|;
    assert r[k - off] == s[k];
  }

  /** A string that starts and ends with non-blank characters is its own `strip()`. */
  lemma StripNoop(s: string)
    requires s == [] || (!IsSpace(s[0]) && !IsSpace(s[|s| - 1]))
    ensures LStrip(s) == s && RStrip(s) == s && Strip(s) == s
  {
  }

  /** `lstrip()` of leading blanks followed by a non-blank start. */
  lemma {:induction false} LStripBlanks(w: string, t: string)
    requires forall i :: 0 <= i < |w| ==> IsSpace(w[i])
    requires t == [] || !IsSpace(t[0])
    ensures LStrip(w + t) == t
    decreases |w|
  {
    if w != [] {
      assert (w + t)[1..] == w[1..] + t;
      LStripBlanks(w[1..], t);
    }
  }

  /** `find(c)` skips a prefix that does not contain `c`. */
  lemma {:induction false} FindCharAppend(p: string, t: string, c: char)
    requires c !in p
    ensures FindChar(p + t, c) == if FindChar(t, c) < 0 then -1 else |p| + FindChar(t, c)
  {
    var k := FindChar(t, c);
    if k >= 0 {
      assert (p + t)[|p| + k] == c;
      assert (p + t)[..|p| + k] == p + t[..k];
    }
  }

  /** The last occurrence of `c` in `p + [c] + q`, when `q` has none, is at `|p|`. */
  lemma {:induction false} RFindCharLast(p: string, c: char, q: string)
    requires c !in q
    ensures RFindChar(p + [c] + q, c) == |p|
    decreases |q|
  {
    var s := p + [c] + q;
    if q == [] {
      assert s[|s| - 1] == c;
    } else {
      assert s[|s| - 1] == q[|q| - 1];
      assert q[|q| - 1] in q;
      assert s[..|s| - 1] == p + [c] + q[..|q| - 1];
      RFindCharLast(p, c, q[..|q| - 1]);
    }
  }

  lemma RFindCharNone(s: string, c: char)
    requires c !in s
    ensures RFindChar(s, c) == -1
  {
  }
}
