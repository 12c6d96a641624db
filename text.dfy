/**
 * The string operations of Python and JavaScript that the modelled code
 * relies on: substring search, replace-all, split/join, stripping a set of
 * whitespace characters, suffix tests and ASCII lower-casing.
 */
module Text {
  import opened Wrappers

  /** `p` occurs in `s` starting at index `i`. */
  predicate OccursAt(s: string, p: string, i: int) {
    0 <= i && i + |p| <= |s| && s[i..i + |p|] == p
  }

  /** Python's `p in s` for strings. */
  predicate Contains(s: string, p: string) {
    exists i :: 0 <= i <= |s| - |p| && OccursAt(s, p, i)
  }

  predicate StartsWith(s: string, p: string) {
    |p| <= |s| && s[..|p|] == p
  }

  /** Python's `s.endswith(p)`. */
  predicate EndsWith(s: string, p: string) {
    |p| <= |s| && s[|s| - |p|..] == p
  }

  /** The first occurrence of `p` in `s` at or after `k` (Python's `s.find(p, k)`). */
  function FindFrom(s: string, p: string, k: nat): (r: Option<nat>)
    requires k <= |s|
    ensures r.Some? ==> k <= r.value && r.value + |p| <= |s|
    decreases |s| - k
  {
    if k + |p| > |s| then None
    else if s[k..k + |p|] == p then Some(k)
    else FindFrom(s, p, k + 1)
  }

  /** `FindFrom` returns an occurrence with none before it, and `None` only when there is none at all. */
  lemma {:induction false} FindFromSpec(s: string, p: string, k: nat)
    requires k <= |s|
    ensures FindFrom(s, p, k).Some? ==> OccursAt(s, p, FindFrom(s, p, k).value)
    ensures FindFrom(s, p, k).Some? ==> forall j :: k <= j < FindFrom(s, p, k).value ==> !OccursAt(s, p, j)
    ensures FindFrom(s, p, k).None? ==> forall j :: k <= j ==> !OccursAt(s, p, j)
    decreases |s| - k
  {
    if k + |p| > |s| {
    } else if s[k..k + |p|] == p {
    } else {
      FindFromSpec(s, p, k + 1);
    }
  }

  /** The first occurrence of `p` in `s` (Python's `s.find(p)`, with `None` for -1). */
  function Find(s: string, p: string): (r: Option<nat>)
    ensures r.Some? ==> r.value + |p| <= |s|
  {
    FindFrom(s, p, 0)
  }

  /** `Find` gives the first occurrence, and `None` exactly when `p` does not occur. */
  lemma FindSpec(s: string, p: string)
    ensures Find(s, p).Some? ==> OccursAt(s, p, Find(s, p).value)
    ensures Find(s, p).Some? ==> forall j :: 0 <= j < Find(s, p).value ==> !OccursAt(s, p, j)
    ensures Find(s, p).None? <==> !Contains(s, p)
  {
    FindFromSpec(s, p, 0);
  }

  /**
   * Python's `s.replace(p, r)`: every occurrence of `p`, found left to right
   * without overlap, is replaced by `r`.
   */
  function Replace(s: string, p: string, r: string): (out: string)
    requires |p| > 0
    ensures !Contains(s, p) ==> out == s
    ensures Contains(s, p) ==> Contains(out, r)
    decreases |s|
  {
    FindSpec(s, p);
    match Find(s, p)
    case None => s
    case Some(i) =>
      var out := s[..i] + r + Replace(s[i + |p|..], p, r);
      assert out[i..i + |r|] == r;
      assert OccursAt(out, r, i);
      out
  }

  /** The last position holding `c` (Python's `s.rfind(c)`, with `None` for -1). */
  function LastIndexOf(s: string, c: char): (r: Option<nat>)
    ensures r.Some? ==> r.value < |s| && s[r.value] == c && forall j :: r.value < j < |s| ==> s[j] != c
    ensures r.None? ==> forall j :: 0 <= j < |s| ==> s[j] != c
    decreases |s|
  {
    if |s| == 0 then None
    else if s[|s| - 1] == c then Some(|s| - 1)
    else LastIndexOf(s[..|s| - 1], c)
  }

  /** A `c` with none after it is the one `LastIndexOf` finds. */
  lemma LastIndexOfAt(s: string, c: char, i: nat)
    requires i < |s| && s[i] == c
    requires forall j :: i < j < |s| ==> s[j] != c
    ensures LastIndexOf(s, c) == Some(i)
  {
  }

  /** Python's `s.split(p)`: the pieces between the occurrences that `Replace` rewrites. */
  function Split(s: string, p: string): (pieces: seq<string>)
    requires |p| > 0
    ensures |pieces| >= 1
    ensures |pieces| == 1 <==> !Contains(s, p)
    ensures |pieces| == 1 ==> pieces[0] == s
    decreases |s|
  {
    FindSpec(s, p);
    match Find(s, p)
    case None => [s]
    case Some(i) => [s[..i]] + Split(s[i + |p|..], p)
  }

  /** Python's `sep.join(pieces)`. */
  function Join(pieces: seq<string>, sep: string): string
  {
    if |pieces| == 0 then ""
    else if |pieces| == 1 then pieces[0]
    else pieces[0] + sep + Join(pieces[1..], sep)
  }

  /** The joined text starts with the first piece, ends with the last, and has the separator right after the first. */
  lemma {:induction false} JoinShape(pieces: seq<string>, sep: string)
    ensures |pieces| >= 1 ==> StartsWith(Join(pieces, sep), pieces[0]) && EndsWith(Join(pieces, sep), pieces[|pieces| - 1])
    ensures |pieces| >= 2 ==> OccursAt(Join(pieces, sep), sep, |pieces[0]|)
    decreases |pieces|
  {
    if |pieces| >= 2 {
      JoinShape(pieces[1..], sep);
      var rest := Join(pieces[1..], sep);
      var out := Join(pieces, sep);
      var last := pieces[|pieces| - 1];
      assert out == pieces[0] + sep + rest;
      assert pieces[1..][|pieces| - 2] == last;
      assert out[|out| - |last|..] == rest[|rest| - |last|..];
      assert out[..|pieces[0]|] == pieces[0];
      assert out[|pieces[0]|..|pieces[0]| + |sep|] == sep;
    }
  }

  lemma JoinCons(h: string, t: seq<string>, sep: string)
    requires |t| >= 1
    ensures Join([h] + t, sep) == h + sep + Join(t, sep)
  {
    assert ([h] + t)[1..] == t;
  }

  /** Replacing every occurrence is gluing the split pieces back together with the replacement. */
  lemma {:induction false} ReplaceIsJoinOfSplit(s: string, p: string, r: string)
    requires |p| > 0
    ensures Replace(s, p, r) == Join(Split(s, p), r)
    decreases |s|
  {
    match Find(s, p)
    case None =>
    case Some(i) =>
      var head, rest := s[..i], s[i + |p|..];
      var tail := Split(rest, p);
      ReplaceIsJoinOfSplit(rest, p, r);
      assert Split(s, p) == [head] + tail;
      JoinCons(head, tail, r);
      assert Replace(s, p, r) == head + r + Replace(rest, p, r);
  }

  /** Joining the split pieces with the separator itself gives back the original text. */
  lemma {:induction false} JoinOfSplit(s: string, p: string)
    requires |p| > 0
    ensures Join(Split(s, p), p) == s
    decreases |s|
  {
    FindSpec(s, p);
    match Find(s, p)
    case None =>
    case Some(i) =>
      var rest := s[i + |p|..];
      JoinOfSplit(rest, p);
      JoinCons(s[..i], Split(rest, p), p);
      assert s[i..i + |p|] == p;
      SliceGlue(s, i, i + |p|);
  }

  lemma SliceGlue(s: string, i: nat, j: nat)
    requires i <= j <= |s|
    ensures s[..i] + s[i..j] + s[j..] == s
  {
  }

  lemma OccursInPrefix(s: string, p: string, i: nat, j: int)
    requires i <= |s|
    requires OccursAt(s[..i], p, j)
    ensures OccursAt(s, p, j) && j + |p| <= i
  {
    assert s[..i][j..j + |p|] == s[j..j + |p|];
  }

  lemma OccursInSuffix(s: string, p: string, i: nat, j: int)
    requires i <= |s|
    requires OccursAt(s[i..], p, j)
    ensures OccursAt(s, p, i + j)
  {
    assert s[i..][j..j + |p|] == s[i + j..i + j + |p|];
  }

  /** The text before the first occurrence does not contain the pattern. */
  lemma BeforeFirstIsFree(s: string, p: string, i: nat)
    requires |p| > 0 && i <= |s|
    requires forall j :: 0 <= j < i ==> !OccursAt(s, p, j)
    ensures !Contains(s[..i], p)
  {
    if Contains(s[..i], p) {
      var j :| 0 <= j <= i - |p| && OccursAt(s[..i], p, j);
      OccursInPrefix(s, p, i, j);
    }
  }

  /** No piece of a split contains the separator: `Replace` leaves no occurrence of `p` unreplaced. */
  lemma {:induction false} SplitPiecesAreFree(s: string, p: string)
    requires |p| > 0
    ensures forall k :: 0 <= k < |Split(s, p)| ==> !Contains(Split(s, p)[k], p)
    decreases |s|
  {
    FindSpec(s, p);
    match Find(s, p)
    case None =>
    case Some(i) =>
      var rest := s[i + |p|..];
      SplitPiecesAreFree(rest, p);
      BeforeFirstIsFree(s, p, i);
      var pieces := Split(s, p);
      var later := Split(rest, p);
      assert pieces == [s[..i]] + later;
      forall k | 0 <= k < |pieces|
        ensures !Contains(pieces[k], p)
      {
        if k > 0 {
          assert pieces[k] == later[k - 1];
        }
      }
  }

  /** An occurrence stays an occurrence when text is added on either side. */
  lemma ContainsWithin(a: string, s: string, b: string, p: string)
    requires Contains(s, p)
    ensures Contains(a + s + b, p)
  {
    var i :| 0 <= i <= |s| - |p| && OccursAt(s, p, i);
    assert (a + s + b)[|a| + i..|a| + i + |p|] == s[i..i + |p|];
    assert OccursAt(a + s + b, p, |a| + i);
  }

  /** Text without the pattern is left exactly as it is by `Replace`. */
  lemma ReplaceAbsent(s: string, p: string, r: string)
    requires |p| > 0 && !Contains(s, p)
    ensures Replace(s, p, r) == s
  {
    FindSpec(s, p);
  }

  /**
   * Replacing a single character by another one rewrites exactly the
   * positions that hold it and keeps the length.
   */
  lemma {:induction false} ReplaceCharAt(s: string, c: char, d: char)
    ensures |Replace(s, [c], [d])| == |s|
    ensures forall k :: 0 <= k < |s| ==> Replace(s, [c], [d])[k] == if s[k] == c then d else s[k]
    decreases |s|
  {
    FindSpec(s, [c]);
    match Find(s, [c])
    case None =>
      forall k | 0 <= k < |s| ensures s[k] != c {
        assert !OccursAt(s, [c], k);
        assert s[k..k + 1] == [s[k]];
      }
    case Some(i) =>
      var rest := s[i + 1..];
      ReplaceCharAt(rest, c, d);
      var out := Replace(s, [c], [d]);
      assert out == s[..i] + [d] + Replace(rest, [c], [d]);
      forall k | 0 <= k < |s|
        ensures out[k] == if s[k] == c then d else s[k]
      {
        if k < i {
          assert !OccursAt(s, [c], k);
          assert s[k..k + 1] == [s[k]];
        } else if k == i {
          assert s[i..i + 1] == [c];
        } else {
          assert out[k] == Replace(rest, [c], [d])[k - i - 1];
        }
      }
  }

  /** A character-wise replacement leaves no occurrence of the replaced character. */
  lemma ReplaceCharRemoves(s: string, c: char, d: char)
    requires c != d
    ensures forall k :: 0 <= k < |Replace(s, [c], [d])| ==> Replace(s, [c], [d])[k] != c
  {
    ReplaceCharAt(s, c, d);
  }

  /** How many leading characters of `s` belong to `ws`. */
  function LeadingCount(s: string, ws: set<char>): (k: nat)
    ensures k <= |s|
    ensures forall j :: 0 <= j < k ==> s[j] in ws
    ensures k == |s| || s[k] !in ws
  {
    if |s| > 0 && s[0] in ws then
      var k := 1 + LeadingCount(s[1..], ws);
      assert forall j :: 1 <= j < k ==> s[j] == s[1..][j - 1];
      k
    else 0
  }

  /** How many trailing characters of `s` belong to `ws`. */
  function TrailingCount(s: string, ws: set<char>): (k: nat)
    ensures k <= |s|
    ensures forall j :: |s| - k <= j < |s| ==> s[j] in ws
    ensures k == |s| || s[|s| - k - 1] !in ws
  {
    if |s| > 0 && s[|s| - 1] in ws then
      var k := 1 + TrailingCount(s[..|s| - 1], ws);
      assert forall j :: |s| - k <= j < |s| - 1 ==> s[j] == s[..|s| - 1][j];
      k
    else 0
  }

  /**
   * Strips both ends: Python's `str.strip()` and JavaScript's
   * `String.prototype.trim()`, each with its own whitespace set.
   */
  function Strip(s: string, ws: set<char>): (r: string)
    ensures OccursAt(s, r, LeadingCount(s, ws))
    ensures r == [] || (r[0] !in ws && r[|r| - 1] !in ws)
  {
    var a := LeadingCount(s, ws);
    var t := s[a..];
    var r := t[..|t| - TrailingCount(t, ws)];
    assert s[a..a + |r|] == r;
    r
  }

  /** The stripped text is the input without a whitespace-only head and tail, and it neither starts nor ends with whitespace. */
  lemma StripShape(s: string, ws: set<char>) returns (a: nat, b: nat)
    ensures a <= b <= |s| && Strip(s, ws) == s[a..b]
    ensures forall j :: 0 <= j < a ==> s[j] in ws
    ensures forall j :: b <= j < |s| ==> s[j] in ws
    ensures Strip(s, ws) == [] || (Strip(s, ws)[0] !in ws && Strip(s, ws)[|Strip(s, ws)| - 1] !in ws)
  {
    a := LeadingCount(s, ws);
    var t := s[a..];
    b := a + |t| - TrailingCount(t, ws);
    assert forall j :: b <= j < |s| ==> s[j] == t[j - a];
  }

  /** Stripping leaves nothing exactly when every character is whitespace. */
  lemma StripEmptyIffBlank(s: string, ws: set<char>)
    ensures Strip(s, ws) == [] <==> forall j :: 0 <= j < |s| ==> s[j] in ws
  {
    var a, b := StripShape(s, ws);
    if Strip(s, ws) != [] {
      assert s[a] == Strip(s, ws)[0];
    }
  }

  /** Stripping twice strips nothing more. */
  lemma StripIdempotent(s: string, ws: set<char>)
    ensures Strip(Strip(s, ws), ws) == Strip(s, ws)
  {
    var t := Strip(s, ws);
    var a, b := StripShape(s, ws);
    if t != [] {
      assert LeadingCount(t, ws) == 0;
      assert TrailingCount(t, ws) == 0;
    }
  }

  /** Python's `str.lower()` restricted to ASCII letters. */
  function AsciiLower(s: string): (r: string)
    ensures |r| == |s|
    ensures forall i :: 0 <= i < |s| ==> r[i] == if 'A' <= s[i] <= 'Z' then (s[i] as int + 32) as char else s[i]
    ensures forall i :: 0 <= i < |r| ==> !('A' <= r[i] <= 'Z')
  {
    seq(|s|, i requires 0 <= i < |s| => if 'A' <= s[i] <= 'Z' then (s[i] as int + 32) as char else s[i])
  }

  /** Lower-casing twice lower-cases nothing more. */
  lemma AsciiLowerIdempotent(s: string)
    ensures AsciiLower(AsciiLower(s)) == AsciiLower(s)
  {
  }
}
