/** The JavaScript string primitives the apk-tools code is built from, with the
    exact semantics of ECMAScript for string (not regular-expression) arguments:
    `startsWith`, `endsWith`, `indexOf`, `includes`, `replace` (first occurrence
    only), `split` (leftmost, non-overlapping), `trim`, `substring` and an
    ASCII `toLowerCase`. Strings are sequences of characters. */
module JsString {
  import opened Wrappers

  /** `s.startsWith(p)` */
  predicate StartsWith(s: string, p: string) {
    |p| <= |s| && s[..|p|] == p
  }

  /** `s.endsWith(p)` */
  predicate EndsWith(s: string, p: string) {
    |p| <= |s| && s[|s| - |p|..] == p
  }

  /** `pat` occurs in `s` at index `i`. */
  predicate OccursAt(s: string, pat: string, i: int) {
    0 <= i && i + |pat| <= |s| && s[i..i + |pat|] == pat
  }

  lemma OccursAtTail(s: string, pat: string, j: int)
    requires |s| > 0 && 0 <= j
    ensures OccursAt(s[1..], pat, j) <==> OccursAt(s, pat, j + 1)
  {
    if 0 <= j && j + |pat| <= |s| - 1 {
      assert s[1..][j..j + |pat|] == s[j + 1..j + 1 + |pat|];
    }
  }

  /** `s.indexOf(pat)`, with `None` for -1: the first index at which `pat` occurs. */
  function IndexOf(s: string, pat: string): (r: Option<nat>)
    ensures r.Some? ==> OccursAt(s, pat, r.value)
    ensures r.Some? ==> forall j :: 0 <= j < r.value ==> !OccursAt(s, pat, j)
    ensures r.None? ==> forall j :: !OccursAt(s, pat, j)
    decreases |s|
  {
    if |s| < |pat| then None
    else if s[..|pat|] == pat then Some(0)
    else
      var rest := IndexOf(s[1..], pat);
      assert forall j :: 1 <= j ==> (OccursAt(s, pat, j) <==> OccursAt(s[1..], pat, j - 1)) by {
        forall j | 1 <= j ensures OccursAt(s, pat, j) <==> OccursAt(s[1..], pat, j - 1) {
          OccursAtTail(s, pat, j - 1);
        }
      }
      assert !OccursAt(s, pat, 0);
      match rest
      case None => None
      case Some(k) => Some(k + 1)
  }

  /** `s.includes(pat)` */
  predicate Contains(s: string, pat: string) {
    IndexOf(s, pat).Some?
  }

  lemma ContainsAt(s: string, pat: string, i: int)
    requires OccursAt(s, pat, i)
    ensures Contains(s, pat)
  {
  }

  /** A prefix of a string is at the first occurrence iff no earlier one exists. */
  lemma IndexOfIs(s: string, pat: string, i: nat)
    requires OccursAt(s, pat, i)
    requires forall j :: 0 <= j < i ==> !OccursAt(s, pat, j)
    ensures IndexOf(s, pat) == Some(i)
  {
  }

  lemma OccursAtPrefix(s: string, pat: string, n: nat, j: int)
    requires n <= |s|
    requires OccursAt(s[..n], pat, j)
    ensures OccursAt(s, pat, j)
  {
    assert s[..n][j..j + |pat|] == s[j..j + |pat|];
  }

  lemma OccursAtSuffix(s: string, pat: string, n: nat, j: int)
    requires n <= |s|
    requires OccursAt(s[n..], pat, j)
    ensures OccursAt(s, pat, n + j)
  {
    assert s[n..][j..j + |pat|] == s[n + j..n + j + |pat|];
  }

  /** `s.replace(pat, rep)` with a string pattern: only the first occurrence is replaced. */
  function ReplaceFirst(s: string, pat: string, rep: string): (r: string)
    ensures !Contains(s, pat) ==> r == s
    ensures StartsWith(s, pat) ==> r == rep + s[|pat|..]
  {
    match IndexOf(s, pat)
    case None => s
    case Some(i) => s[..i] + rep + s[i + |pat|..]
  }

  /** The inverse of `Split`: the pieces glued back with the separator. */
  function Join(parts: seq<string>, sep: string): string
    requires |parts| >= 1
  {
    if |parts| == 1 then parts[0] else parts[0] + sep + Join(parts[1..], sep)
  }

  /** `s.split(sep)` for a non-empty string separator: the pieces between the
      leftmost non-overlapping occurrences of `sep`, scanning left to right. */
  function Split(s: string, sep: string): (r: seq<string>)
    requires |sep| > 0
    ensures |r| >= 1
    ensures |r| == 1 <==> !Contains(s, sep)
    ensures IndexOf(s, sep).None? ==> r[0] == s
    ensures IndexOf(s, sep).Some? ==> r[0] == s[..IndexOf(s, sep).value]
    ensures forall k :: 0 <= k < |r| ==> !Contains(r[k], sep)
    ensures Join(r, sep) == s
    decreases |s|
  {
    match IndexOf(s, sep)
    case None => [s]
    case Some(i) =>
      var tail := Split(s[i + |sep|..], sep);
      SplitStep(s, sep, i, tail);
      [s[..i]] + tail
  }

  /** The pieces of `split` before the first separator and after it. */
  lemma SplitStep(s: string, sep: string, i: nat, tail: seq<string>)
    requires |sep| > 0 && IndexOf(s, sep) == Some(i)
    requires |tail| >= 1 && Join(tail, sep) == s[i + |sep|..]
    requires forall k :: 0 <= k < |tail| ==> !Contains(tail[k], sep)
    ensures var r := [s[..i]] + tail;
      && |r| >= 2
      && (forall k :: 0 <= k < |r| ==> !Contains(r[k], sep))
      && Join(r, sep) == s
  {
    NoSeparatorBefore(s, sep, i);
    PiecesCons(s[..i], tail, sep);
    JoinCons(s[..i], tail, sep);
    assert OccursAt(s, sep, i);
    SplitAround(s, sep, i);
  }

  lemma PiecesCons(head: string, tail: seq<string>, sep: string)
    requires !Contains(head, sep)
    requires forall k :: 0 <= k < |tail| ==> !Contains(tail[k], sep)
    ensures forall k :: 0 <= k < |[head] + tail| ==> !Contains(([head] + tail)[k], sep)
  {
    forall k | 0 <= k < |[head] + tail| ensures !Contains(([head] + tail)[k], sep) {
      if k > 0 {
        assert ([head] + tail)[k] == tail[k - 1];
      }
    }
  }

  lemma SplitAround(s: string, sep: string, i: nat)
    requires OccursAt(s, sep, i)
    ensures s == s[..i] + sep + s[i + |sep|..]
  {
  }

  /** Nothing before the first occurrence contains the separator. */
  lemma NoSeparatorBefore(s: string, sep: string, i: nat)
    requires |sep| > 0 && IndexOf(s, sep) == Some(i)
    ensures !Contains(s[..i], sep)
  {
    if Contains(s[..i], sep) {
      OccursAtPrefix(s, sep, i, IndexOf(s[..i], sep).value);
    }
  }

  lemma JoinCons(head: string, tail: seq<string>, sep: string)
    requires |tail| >= 1
    ensures Join([head] + tail, sep) == head + sep + Join(tail, sep)
  {
    assert ([head] + tail)[1..] == tail;
  }

  /** A separator "first occurs right after `a`": no occurrence of `sep` starts
      inside `a`, not even one that runs on into a following `sep`. */
  predicate FirstAfter(a: string, sep: string)
    requires |sep| > 0
  {
    !Contains(a + sep[..|sep| - 1], sep)
  }

  /** In `a + sep + b`, where `sep` first occurs right after `a`, the first
      occurrence is at `|a|`. */
  lemma IndexOfAfter(a: string, sep: string, b: string)
    requires |sep| > 0
    requires FirstAfter(a, sep)
    ensures IndexOf(a + sep + b, sep) == Some(|a|)
  {
    var s := a + sep + b;
    assert OccursAt(s, sep, |a|) by { assert s[|a|..|a| + |sep|] == sep; }
    forall j | 0 <= j < |a| ensures !OccursAt(s, sep, j) {
      if OccursAt(s, sep, j) {
        var t := a + sep[..|sep| - 1];
        assert s[..|t|] == t;
        assert t[j..j + |sep|] == s[j..j + |sep|];
        ContainsAt(t, sep, j);
      }
    }
    IndexOfIs(s, sep, |a|);
  }

  /** Splitting `a + sep + b` where `sep` first occurs right after `a`. */
  lemma {:induction false} SplitAfter(a: string, sep: string, b: string)
    requires |sep| > 0
    requires FirstAfter(a, sep)
    ensures Split(a + sep + b, sep) == [a] + Split(b, sep)
  {
    var s := a + sep + b;
    IndexOfAfter(a, sep, b);
    assert s[..|a|] == a;
    assert s[|a| + |sep|..] == b;
  }

  /** `replace` on `a + pat + b`, where `pat` first occurs right after `a`,
      replaces exactly that occurrence. */
  lemma ReplaceFirstAfter(a: string, pat: string, rep: string, b: string)
    requires |pat| > 0
    requires FirstAfter(a, pat)
    ensures ReplaceFirst(a + pat + b, pat, rep) == a + rep + b
  {
    var s := a + pat + b;
    IndexOfAfter(a, pat, b);
    assert s[..|a|] == a;
    assert s[|a| + |pat|..] == b;
  }

  /** Splitting a string in which `sep` does not occur. */
  lemma SplitNone(s: string, sep: string)
    requires |sep| > 0
    requires !Contains(s, sep)
    ensures Split(s, sep) == [s]
  {
  }

  /** The characters `trim` removes: ECMAScript WhiteSpace and LineTerminator. */
  predicate IsSpace(c: char) {
    || c == '\t' || c == '\n' || c == '\U{B}' || c == '\U{C}' || c == '\r'
    || c == ' ' || c == '\U{A0}' || c == '\U{1680}'
    || ('\U{2000}' <= c <= '\U{200A}')
    || c == '\U{2028}' || c == '\U{2029}' || c == '\U{202F}' || c == '\U{205F}'
    || c == '\U{3000}' || c == '\U{FEFF}'
  }

  /** `s` has no white space at either end. */
  predicate IsTrimmed(s: string) {
    s == [] || (!IsSpace(s[0]) && !IsSpace(s[|s| - 1]))
  }

  function TrimStart(s: string): (r: string)
    ensures |r| <= |s| && r == s[|s| - |r|..]
    ensures forall k :: 0 <= k < |s| - |r| ==> IsSpace(s[k])
    ensures r != [] ==> !IsSpace(r[0])
  {
    if s != [] && IsSpace(s[0]) then TrimStart(s[1..]) else s
  }

  function TrimEnd(s: string): (r: string)
    ensures |r| <= |s| && r == s[..|r|]
    ensures forall k :: |r| <= k < |s| ==> IsSpace(s[k])
    ensures r != [] ==> !IsSpace(r[|r| - 1])
  {
    if s != [] && IsSpace(s[|s| - 1]) then TrimEnd(s[..|s| - 1]) else s
  }

  /** `s.trim()`: the longest infix of `s` without white space at its ends. */
  function Trim(s: string): (r: string)
    ensures IsTrimmed(r)
  {
    TrimEnd(TrimStart(s))
  }

  lemma TrimStartOfTrimmed(s: string)
    requires s == [] || !IsSpace(s[0])
    ensures TrimStart(s) == s
  {
  }

  lemma TrimEndOfTrimmed(s: string)
    requires s == [] || !IsSpace(s[|s| - 1])
    ensures TrimEnd(s) == s
  {
  }

  /** `trim` leaves a string without surrounding white space unchanged. */
  lemma TrimOfTrimmed(s: string)
    requires IsTrimmed(s)
    ensures Trim(s) == s
  {
    TrimStartOfTrimmed(s);
    TrimEndOfTrimmed(s);
  }

  /** `trim` is idempotent. */
  lemma TrimIdempotent(s: string)
    ensures Trim(Trim(s)) == Trim(s)
  {
    TrimOfTrimmed(Trim(s));
  }

  /** `s.trim() === ""` exactly when every character of `s` is white space. */
  lemma {:induction false} TrimEmptyIff(s: string)
    ensures Trim(s) == "" <==> forall k :: 0 <= k < |s| ==> IsSpace(s[k])
  {
    var t := TrimStart(s);
    if Trim(s) != "" {
      assert t != [];
      assert s[|s| - |t|] == t[0];
    }
  }

  /** `s.substring(n)` for `n >= 0`: the suffix from `n`, or "" past the end. */
  function Substring(s: string, n: nat): (r: string)
    ensures n <= |s| ==> |r| == |s| - n && s == s[..n] + r
    ensures n >= |s| ==> r == ""
  {
    if n <= |s| then s[n..] else ""
  }

  /** A text with exactly one separator, right after `a`, splits into two parts. */
  lemma SplitTwo(a: string, sep: string, b: string)
    requires |sep| > 0 && FirstAfter(a, sep) && !Contains(b, sep)
    ensures Split(a + (sep + b), sep) == [a, b]
  {
    ConcatAssociates(a, sep, b);
    SplitAfter(a, sep, b);
    SplitNone(b, sep);
    PairIsConcat(a, b);
  }

  /** For a one-character separator, `split` undoes `Join` of pieces that do
      not contain it. */
  lemma {:induction false} SplitJoin(parts: seq<string>, sep: string)
    requires |sep| == 1 && |parts| >= 1
    requires forall k :: 0 <= k < |parts| ==> !Contains(parts[k], sep)
    ensures Split(Join(parts, sep), sep) == parts
  {
    if |parts| == 1 {
      SplitNone(parts[0], sep);
    } else {
      assert parts[0] + sep[..0] == parts[0];
      forall k | 0 <= k < |parts[1..]| ensures !Contains(parts[1..][k], sep) {
        assert parts[1..][k] == parts[k + 1];
      }
      SplitJoin(parts[1..], sep);
      SplitAfter(parts[0], sep, Join(parts[1..], sep));
      assert parts == [parts[0]] + parts[1..];
    }
  }

  /** Lines joined by a one-character separator, the last of them not empty,
      give a text that is not empty and splits back into those lines. */
  lemma SplitJoinSnoc(lines: seq<string>, a: string, sep: string)
    requires |sep| == 1 && !Contains(a, sep) && a != ""
    requires forall k :: 0 <= k < |lines| ==> !Contains(lines[k], sep)
    ensures Join(lines + [a], sep) != ""
    ensures Split(Join(lines + [a], sep), sep) == lines + [a]
  {
    var parts := lines + [a];
    forall k | 0 <= k < |parts| ensures !Contains(parts[k], sep) {
      if k < |lines| {
        assert parts[k] == lines[k];
      }
    }
    SplitJoin(parts, sep);
    JoinNotEmpty(parts, sep);
  }

  /** A join of pieces, the last of them not empty, is not empty. */
  lemma {:induction false} JoinNotEmpty(parts: seq<string>, sep: string)
    requires |parts| >= 1 && parts[|parts| - 1] != ""
    ensures Join(parts, sep) != ""
  {
    if |parts| > 1 {
      JoinNotEmpty(parts[1..], sep);
    }
  }

  lemma ConcatAssociates(a: string, b: string, c: string)
    ensures a + (b + c) == a + b + c
  {
  }

  lemma PairIsConcat(a: string, b: string)
    ensures [a] + [b] == [a, b]
  {
  }

  lemma SubstringAfter(p: string, x: string)
    ensures Substring(p + x, |p|) == x
  {
    assert (p + x)[|p|..] == x;
  }

  function LowerChar(c: char): char {
    if 'A' <= c <= 'Z' then (c as int + 32) as char else c
  }

  /** `s.toLowerCase()`, restricted to ASCII letters. */
  function ToLower(s: string): (r: string)
    ensures |r| == |s|
  {
    seq(|s|, i requires 0 <= i < |s| => LowerChar(s[i]))
  }
}
