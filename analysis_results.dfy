/** The ReconizeX result view (apk-tools-client/components/analysis-results.tsx):
    each non-blank line of the scanner output becomes a record
    `[type] [fileType] [severity] path` (or an "unknown" record), the records
    are grouped by their severity string, and type labels are normalised for
    display. */
module AnalysisResults {
  import opened Wrappers
  import opened JsString
  import Seqs

  /** A parsed line; `kind` is the source's `type`. */
  datatype Record = Record(kind: string, fileType: string, severity: string, path: string)

  const UNKNOWN := "unknown"

  // ---------------------------------------------------------------- one line

  /** The characters `.` does not match in a JavaScript regular expression. */
  predicate IsTerminator(c: char) {
    c == '\n' || c == '\r' || c == '\U{2028}' || c == '\U{2029}'
  }

  predicate NoTerminator(s: string) {
    forall k :: 0 <= k < |s| ==> !IsTerminator(s[k])
  }

  /** What a greedy `(.*)` takes: the longest prefix without a line terminator. */
  function UpToTerminator(s: string): (r: string)
    ensures r <= s && NoTerminator(r)
    ensures |r| < |s| ==> IsTerminator(s[|r|])
  {
    if s == [] || IsTerminator(s[0]) then []
    else [s[0]] + UpToTerminator(s[1..])
  }

  /** The text after a lazy group `(.*?)` number `level` (1 to 3). */
  function Delimiter(level: nat): string {
    if level < 3 then "] [" else "] "
  }

  /** Matching `\[(.*?)\] \[(.*?)\] \[(.*?)\] (.*)` from lazy group `level`,
      which started at `start` and is tried with end `e`: the shortest end for
      which the rest of the pattern matches wins, and a group cannot run past
      a line terminator. The result is the groups from `level` on. */
  function Groups(s: string, level: nat, start: nat, e: nat): (r: Option<seq<string>>)
    requires 1 <= level <= 3 && start <= e <= |s|
    ensures r.Some? ==> |r.value| == 5 - level
    decreases 3 - level, |s| - e, 1
  {
    var rest := if StartsWith(s[e..], Delimiter(level)) then AfterDelimiter(s, level, e) else None;
    if rest.Some? then Some([s[start..e]] + rest.value)
    else if e < |s| && !IsTerminator(s[e]) then Groups(s, level, start, e + 1)
    else None
  }

  /** The groups after the delimiter that ends group `level` at `e`. */
  function AfterDelimiter(s: string, level: nat, e: nat): (r: Option<seq<string>>)
    requires 1 <= level <= 3 && e <= |s| && StartsWith(s[e..], Delimiter(level))
    ensures r.Some? ==> |r.value| == 4 - level
    decreases 3 - level, |s| - e, 0
  {
    var next := e + |Delimiter(level)|;
    if level < 3 then Groups(s, level + 1, next, next)
    else Some([UpToTerminator(s[next..])])
  }

  /** The pattern anchored at `p`. */
  function MatchAt(s: string, p: nat): Option<seq<string>>
    requires p < |s|
  {
    if s[p] == '[' then Groups(s, 1, p + 1, p + 1) else None
  }

  /** The unanchored search: the first position where the pattern matches. */
  function Search(s: string, p: nat): (r: Option<seq<string>>)
    ensures r.Some? ==> |r.value| == 4
    decreases |s| - p
  {
    if p >= |s| then None
    else if MatchAt(s, p).Some? then MatchAt(s, p)
    else Search(s, p + 1)
  }

  /** The record of one raw line. */
  function ParseLine(line: string): Record {
    match Search(line, 0)
    case Some(g) => Record(g[0], g[1], g[2], g[3])
    case None => Record(UNKNOWN, UNKNOWN, UNKNOWN, line)
  }

  /** A line without `[` cannot match: all three tags are "unknown" and the
      path is the raw line, surrounding spaces included. */
  lemma UnbracketedLineIsUnknown(line: string)
    requires '[' !in line
    ensures ParseLine(line) == Record(UNKNOWN, UNKNOWN, UNKNOWN, line)
  {
    NoBracketNoMatch(line, 0);
  }

  lemma {:induction false} NoBracketNoMatch(s: string, p: nat)
    requires '[' !in s
    ensures Search(s, p) == None
    decreases |s| - p
  {
    if p < |s| {
      NoBracketNoMatch(s, p + 1);
    }
  }

  /** A lazy group that meets neither `]` nor a line terminator before `end`,
      where its delimiter and the rest of the pattern match, ends at `end`. */
  lemma {:induction false} GroupEndsAt(s: string, level: nat, start: nat, e: nat, end: nat)
    requires 1 <= level <= 3 && start <= e <= end <= |s|
    requires forall k :: e <= k < end ==> s[k] != ']' && !IsTerminator(s[k])
    requires StartsWith(s[end..], Delimiter(level)) && AfterDelimiter(s, level, end).Some?
    ensures Groups(s, level, start, e) == Some([s[start..end]] + AfterDelimiter(s, level, end).value)
    decreases end - e
  {
    if e < end {
      assert s[e..][0] == s[e] != ']';
      GroupEndsAt(s, level, start, e + 1, end);
    }
  }

  predicate PlainTag(t: string) {
    ']' !in t && NoTerminator(t)
  }

  lemma PlainRange(s: string, i: nat, j: nat)
    requires i <= j <= |s| && PlainTag(s[i..j])
    ensures forall k :: i <= k < j ==> s[k] != ']' && !IsTerminator(s[k])
  {
    forall k | i <= k < j ensures s[k] != ']' && !IsTerminator(s[k]) {
      assert s[i..j][k - i] == s[k];
    }
  }

  /** A line that starts with `[` and has the three delimiters at `a`, `b`
      and `c`, with plain tags between them, parses to those tags and the rest. */
  lemma {:induction false} ParsesAt(s: string, a: nat, b: nat, c: nat)
    requires 1 <= a && a + 3 <= b && b + 3 <= c && c + 2 <= |s| && s[0] == '['
    requires s[a..a + 3] == "] [" && s[b..b + 3] == "] [" && s[c..c + 2] == "] "
    requires PlainTag(s[1..a]) && PlainTag(s[a + 3..b]) && PlainTag(s[b + 3..c]) && NoTerminator(s[c + 2..])
    ensures ParseLine(s) == Record(s[1..a], s[a + 3..b], s[b + 3..c], s[c + 2..])
  {
    SecondDelimiterOn(s, a, b, c);
    PlainRange(s, 1, a);
    assert s[a..][..3] == s[a..a + 3];
    GroupEndsAt(s, 1, 1, 1, a);
    var first := [s[1..a]] + AfterDelimiter(s, 1, a).value;
    assert first == [s[1..a], s[a + 3..b], s[b + 3..c], s[c + 2..]];
    assert Search(s, 0) == MatchAt(s, 0) == Some(first);
  }

  lemma {:induction false} SecondDelimiterOn(s: string, a: nat, b: nat, c: nat)
    requires 1 <= a && a + 3 <= b && b + 3 <= c && c + 2 <= |s|
    requires s[a..a + 3] == "] [" && s[b..b + 3] == "] [" && s[c..c + 2] == "] "
    requires PlainTag(s[a + 3..b]) && PlainTag(s[b + 3..c]) && NoTerminator(s[c + 2..])
    ensures StartsWith(s[a..], Delimiter(1))
    ensures AfterDelimiter(s, 1, a) == Some([s[a + 3..b], s[b + 3..c], s[c + 2..]])
  {
    ThirdDelimiterOn(s, b, c);
    PlainRange(s, a + 3, b);
    assert s[b..][..3] == s[b..b + 3];
    GroupEndsAt(s, 2, a + 3, a + 3, b);
    assert s[a..][..3] == s[a..a + 3];
    var second := [s[a + 3..b]] + AfterDelimiter(s, 2, b).value;
    assert second == [s[a + 3..b], s[b + 3..c], s[c + 2..]];
  }

  lemma {:induction false} ThirdDelimiterOn(s: string, b: nat, c: nat)
    requires b + 3 <= c && c + 2 <= |s|
    requires s[b..b + 3] == "] [" && s[c..c + 2] == "] "
    requires PlainTag(s[b + 3..c]) && NoTerminator(s[c + 2..])
    ensures StartsWith(s[b..], Delimiter(2))
    ensures AfterDelimiter(s, 2, b) == Some([s[b + 3..c], s[c + 2..]])
  {
    PlainRange(s, b + 3, c);
    assert s[c..][..2] == s[c..c + 2];
    assert UpToTerminator(s[c + 2..]) == s[c + 2..];
    GroupEndsAt(s, 3, b + 3, b + 3, c);
    assert s[b..][..3] == s[b..b + 3];
    var third := [s[b + 3..c]] + AfterDelimiter(s, 3, c).value;
    assert third == [s[b + 3..c], s[c + 2..]];
  }

  /** `[t] [f] [s] p` with tags free of `]` and no line terminator anywhere
      yields type t, fileType f, severity s and path p. */
  lemma WellFormedLine(t: string, f: string, sev: string, p: string)
    requires PlainTag(t) && PlainTag(f) && PlainTag(sev) && NoTerminator(p)
    ensures ParseLine("[" + t + "] [" + f + "] [" + sev + "] " + p) == Record(t, f, sev, p)
  {
    var s := "[" + t + "] [" + f + "] [" + sev + "] " + p;
    var a := 1 + |t|;
    var b := a + 3 + |f|;
    var c := b + 3 + |sev|;
    assert s[1..a] == t;
    assert s[a..a + 3] == "] [";
    assert s[a + 3..b] == f;
    assert s[b..b + 3] == "] [";
    assert s[b + 3..c] == sev;
    assert s[c..c + 2] == "] ";
    assert s[c + 2..] == p;
    ParsesAt(s, a, b, c);
  }

  // ---------------------------------------------------------------- the text

  /** `filter((line) => line.trim() !== "")`. */
  function NonBlank(lines: seq<string>): (r: seq<string>)
    ensures |r| <= |lines|
  {
    if lines == [] then []
    else
      var rest := NonBlank(lines[1..]);
      if Trim(lines[0]) != "" then [lines[0]] + rest else rest
  }

  /** The kept lines are lines of the input, none of them blank. */
  lemma {:induction false} NonBlankKeepsNonBlankLines(lines: seq<string>)
    ensures forall x :: x in NonBlank(lines) ==> x in lines && Trim(x) != ""
  {
    if lines != [] {
      NonBlankKeepsNonBlankLines(lines[1..]);
      assert lines == [lines[0]] + lines[1..];
    }
  }

  /** One line more keeps the earlier lines' result and adds that line if it
      is not blank. */
  lemma {:induction false} NonBlankSnoc(lines: seq<string>, x: string)
    ensures Trim(x) != "" ==> NonBlank(lines + [x]) == NonBlank(lines) + [x]
    ensures Trim(x) == "" ==> NonBlank(lines + [x]) == NonBlank(lines)
  {
    if lines != [] {
      Seqs.SnocTail(lines, x);
      NonBlankSnoc(lines[1..], x);
      Seqs.ConsSnoc(lines[0], NonBlank(lines[1..]), x);
    }
  }

  function ParseAll(lines: seq<string>): seq<Record> {
    seq(|lines|, k requires 0 <= k < |lines| => ParseLine(lines[k]))
  }

  /** `parseResults`: the records of the non-blank lines of the text. */
  function ParseResults(text: string): (r: seq<Record>)
    ensures text == "" ==> r == []
  {
    if text == "" then [] else ParseAll(NonBlank(Split(text, "\n")))
  }

  /** Exactly one record per non-blank line, in input order: a further line
      adds its record at the end, or nothing if it is blank. */
  lemma ParseOneMoreLine(lines: seq<string>, x: string)
    ensures Trim(x) != "" ==> ParseAll(NonBlank(lines + [x])) == ParseAll(NonBlank(lines)) + [ParseLine(x)]
    ensures Trim(x) == "" ==> ParseAll(NonBlank(lines + [x])) == ParseAll(NonBlank(lines))
  {
    NonBlankSnoc(lines, x);
    if Trim(x) != "" {
      ParseAllSnoc(NonBlank(lines), x);
    }
  }

  lemma ParseAllSnoc(lines: seq<string>, x: string)
    ensures ParseAll(lines + [x]) == ParseAll(lines) + [ParseLine(x)]
  {
    assert forall k :: 0 <= k < |lines| ==> (lines + [x])[k] == lines[k];
  }

  /** A single-line text gives one record if the line is not blank and none
      otherwise. */
  lemma SingleLine(text: string)
    requires !Contains(text, "\n")
    ensures ParseResults(text) == if Trim(text) != "" then [ParseLine(text)] else []
  {
    if text != "" {
      SplitNone(text, "\n");
      assert NonBlank([text]) == (if Trim(text) != "" then [text] else []) + NonBlank([]);
    }
  }

  // ---------------------------------------------------------------- grouping

  /** The records with exactly the severity string `sev`, in input order. */
  function WithSeverity(rs: seq<Record>, sev: string): (r: seq<Record>)
    ensures |r| <= |rs|
    ensures forall k :: 0 <= k < |r| ==> r[k].severity == sev
  {
    if rs == [] then []
    else WithSeverity(rs[..|rs| - 1], sev) + (if rs[|rs| - 1].severity == sev then [rs[|rs| - 1]] else [])
  }

  function Severities(rs: seq<Record>): seq<string> {
    seq(|rs|, k requires 0 <= k < |rs| => rs[k].severity)
  }

  /** The object the `reduce` builds: a key for each severity that occurs,
      holding the records with that severity in input order. */
  ghost predicate GroupedBySeverity(rs: seq<Record>, groups: map<string, seq<Record>>) {
    && (forall sev :: sev in groups <==> WithSeverity(rs, sev) != [])
    && (forall sev :: sev in groups ==> groups[sev] == WithSeverity(rs, sev))
  }

  /** The names a plain object `{}` inherits from `Object.prototype`. For such a
      key `acc[severity]` is the inherited function or object, which is truthy
      and has no `push`, so the `reduce` throws a `TypeError`. */
  const INHERITED_NAMES: set<string> := {
    "constructor", "hasOwnProperty", "isPrototypeOf", "propertyIsEnumerable",
    "toLocaleString", "toString", "valueOf", "__proto__",
    "__defineGetter__", "__defineSetter__", "__lookupGetter__", "__lookupSetter__"
  }

  /** Some record has a severity the grouping object already inherits. */
  predicate HasInheritedSeverity(rs: seq<Record>) {
    exists k :: 0 <= k < |rs| && rs[k].severity in INHERITED_NAMES
  }

  /** The severity grouping of the result view: the groups, or `None` when
      the `reduce` throws on a severity named like an inherited member. */
  method GroupBySeverity(rs: seq<Record>) returns (groups: Option<map<string, seq<Record>>>)
    ensures groups.None? <==> HasInheritedSeverity(rs)
    ensures groups.Some? ==> GroupedBySeverity(rs, groups.value)
  {
    var acc: map<string, seq<Record>> := map[];
    for i := 0 to |rs|
      invariant GroupedBySeverity(rs[..i], acc)
      invariant forall k :: 0 <= k < i ==> rs[k].severity !in INHERITED_NAMES
    {
      var sev := rs[i].severity;
      if sev in INHERITED_NAMES {
        return None;
      }
      if sev !in acc {
        acc := acc[sev := []];
      }
      acc := acc[sev := acc[sev] + [rs[i]]];
      assert rs[..i + 1][..i] == rs[..i];
    }
    assert rs[..|rs|] == rs;
    return Some(acc);
  }

  /** Records whose severities are the levels the view counts, or the
      fallback "unknown", are always grouped. */
  lemma CountedSeveritiesGroup(rs: seq<Record>)
    requires forall k :: 0 <= k < |rs| ==> rs[k].severity in {"critical", "high", "medium", "low", "info", UNKNOWN}
    ensures !HasInheritedSeverity(rs)
  {
  }

  /** `groupedResults[sev]?.length || 0`. */
  function BadgeCount(groups: map<string, seq<Record>>, sev: string): nat {
    if sev in groups then |groups[sev]| else 0
  }

  lemma {:induction false} WithSeverityCount(rs: seq<Record>, sev: string)
    ensures |WithSeverity(rs, sev)| == Seqs.Count(Severities(rs), sev)
  {
    if rs != [] {
      var init := rs[..|rs| - 1];
      WithSeverityCount(init, sev);
      assert Severities(rs) == Severities(init) + [rs[|rs| - 1].severity];
      Seqs.CountAppend(Severities(init), rs[|rs| - 1].severity, sev);
    }
  }

  /** Each badge counts exactly the records whose severity is that string. */
  lemma BadgeCountIsCount(rs: seq<Record>, groups: map<string, seq<Record>>, sev: string)
    requires GroupedBySeverity(rs, groups)
    ensures BadgeCount(groups, sev) == Seqs.Count(Severities(rs), sev)
  {
    WithSeverityCount(rs, sev);
  }

  /** Every record is in the group of its own severity, and only there. */
  lemma {:induction false} EveryRecordInItsGroup(rs: seq<Record>, groups: map<string, seq<Record>>, i: nat)
    requires GroupedBySeverity(rs, groups) && i < |rs|
    ensures rs[i].severity in groups && rs[i] in groups[rs[i].severity]
    ensures forall sev :: sev in groups && rs[i] in groups[sev] ==> sev == rs[i].severity
  {
    InOwnGroup(rs, i);
  }

  lemma {:induction false} InOwnGroup(rs: seq<Record>, i: nat)
    requires i < |rs|
    ensures rs[i] in WithSeverity(rs, rs[i].severity)
  {
    var init := rs[..|rs| - 1];
    if i < |rs| - 1 {
      assert init[i] == rs[i];
      InOwnGroup(init, i);
    }
  }

  /** The sum of the group sizes over a list of keys. */
  function GroupSizes(rs: seq<Record>, keys: seq<string>): nat {
    if keys == [] then 0
    else GroupSizes(rs, keys[..|keys| - 1]) + |WithSeverity(rs, keys[|keys| - 1])|
  }

  lemma {:induction false} GroupSizesSnoc(rs: seq<Record>, x: Record, keys: seq<string>)
    ensures GroupSizes(rs + [x], keys) == GroupSizes(rs, keys) + Seqs.Count(keys, x.severity)
  {
    if keys != [] {
      var init, last := keys[..|keys| - 1], keys[|keys| - 1];
      GroupSizesSnoc(rs, x, init);
      WithSeveritySnoc(rs, x, last);
      Seqs.LastSplit(keys);
      Seqs.CountAppend(init, last, x.severity);
    }
  }

  lemma WithSeveritySnoc(rs: seq<Record>, x: Record, sev: string)
    ensures |WithSeverity(rs + [x], sev)| == |WithSeverity(rs, sev)| + (if x.severity == sev then 1 else 0)
  {
    Seqs.SnocTake(rs, x);
  }

  lemma {:induction false} AbsentSeverityEmpty(rs: seq<Record>, sev: string)
    requires sev !in Severities(rs)
    ensures WithSeverity(rs, sev) == []
  {
    if rs != [] {
      var init := rs[..|rs| - 1];
      assert Severities(rs)[|rs| - 1] == rs[|rs| - 1].severity;
      forall k | 0 <= k < |init| ensures Severities(init)[k] != sev {
        assert Severities(rs)[k] == rs[k].severity;
      }
      AbsentSeverityEmpty(init, sev);
    }
  }

  /** Summed over the distinct severities, the group sizes give the number of
      records: no record is lost and none is counted twice. */
  lemma {:induction false} GroupSizesSumToTotal(rs: seq<Record>)
    ensures GroupSizes(rs, Seqs.Distinct(Severities(rs))) == |rs|
  {
    if rs != [] {
      var init, x := rs[..|rs| - 1], rs[|rs| - 1];
      var d := Seqs.Distinct(Severities(init));
      GroupSizesSumToTotal(init);
      if x.severity !in d {
        assert x.severity !in Severities(init);
        AbsentSeverityEmpty(init, x.severity);
      }
      GroupSizesAddOne(init, x, d);
      Seqs.DistinctAppend(Severities(init), x.severity);
      SeveritiesSnoc(init, x);
      Seqs.LastSplit(rs);
    }
  }

  /** One more record adds one to the sum over the keys, the new severity
      joining the keys when it was not there. */
  lemma GroupSizesAddOne(init: seq<Record>, x: Record, d: seq<string>)
    requires Seqs.NoDuplicates(d) && GroupSizes(init, d) == |init|
    requires x.severity !in d ==> WithSeverity(init, x.severity) == []
    ensures GroupSizes(init + [x], if x.severity in d then d else d + [x.severity]) == |init| + 1
  {
    GroupSizesSnoc(init, x, d);
    if x.severity in d {
      CountOnce(d, x.severity);
    } else {
      Seqs.SnocTake(d, x.severity);
      WithSeveritySnoc(init, x, x.severity);
    }
  }

  lemma SeveritiesSnoc(rs: seq<Record>, x: Record)
    ensures Severities(rs + [x]) == Severities(rs) + [x.severity]
  {
  }

  lemma {:induction false} CountOnce(s: seq<string>, x: string)
    requires Seqs.NoDuplicates(s) && x in s
    ensures Seqs.Count(s, x) == 1
  {
    var init := s[..|s| - 1];
    if s[|s| - 1] == x {
      assert x !in init;
    } else {
      assert x in init;
      CountOnce(init, x);
    }
  }

  // ---------------------------------------------------------------- types and labels

  function Types(rs: seq<Record>): seq<string> {
    seq(|rs|, k requires 0 <= k < |rs| => rs[k].kind)
  }

  /** `[...new Set(parsedResults.map((result) => result.type))]`: each type
      once, in order of first occurrence. */
  function DistinctTypes(rs: seq<Record>): (r: seq<string>)
    ensures Seqs.DistinctOf(Types(rs), r)
    ensures forall k :: 0 <= k < |rs| ==> rs[k].kind in r
  {
    var r := Seqs.Distinct(Types(rs));
    forall k | 0 <= k < |rs| ensures rs[k].kind in r {
      assert Types(rs)[k] == rs[k].kind;
    }
    r
  }

  /** `replace(/android-|android-smali-|-strict/g, "")`. At each position the
      alternatives are tried in order; `android-smali-` begins with `android-`,
      so where it occurs `android-` has already matched and it never does. */
  function StripTags(s: string): (r: string)
    ensures |r| <= |s|
  {
    if s == [] then []
    else if StartsWith(s, "android-") then StripTags(s[8..])
    else if StartsWith(s, "-strict") then StripTags(s[7..])
    else [s[0]] + StripTags(s[1..])
  }

  lemma AndroidSmaliShadowed(s: string)
    requires StartsWith(s, "android-smali-")
    ensures StartsWith(s, "android-")
  {
    assert s[..8] == s[..14][..8];
  }

  /** `replace(/-/g, " ")`. */
  function DashesToSpaces(s: string): (r: string)
    ensures |r| == |s|
    ensures forall k :: 0 <= k < |s| ==> r[k] == (if s[k] == '-' then ' ' else s[k])
  {
    seq(|s|, k requires 0 <= k < |s| => if s[k] == '-' then ' ' else s[k])
  }

  /** The display label of a type. */
  function Normalise(name: string): (r: string)
    ensures |r| <= |name|
    ensures '-' !in r
  {
    DashesToSpaces(StripTags(name))
  }

  lemma {:induction false} StripTagsDashFree(s: string)
    requires '-' !in s
    ensures StripTags(s) == s
  {
    if s != [] {
      assert !StartsWith(s, "android-") by {
        if |s| >= 8 { assert s[..8][7] == s[7] != '-'; }
      }
      assert !StartsWith(s, "-strict") by {
        if |s| >= 7 { assert s[..7][0] == s[0] != '-'; }
      }
      StripTagsDashFree(s[1..]);
    }
  }

  /** A label without `-` is displayed as it is. */
  lemma DashFreeLabelUnchanged(name: string)
    requires '-' !in name
    ensures Normalise(name) == name
  {
    StripTagsDashFree(name);
  }

  /** Text shorter than both removable tags keeps its every character. */
  lemma {:induction false} ShortUntouched(s: string)
    requires |s| < 7
    ensures StripTags(s) == s
  {
    if s != [] {
      ShortUntouched(s[1..]);
    }
  }

  /** `android-smali-x` is displayed as "smali x": the `android-` alternative
      wins, so "smali" stays in the label. */
  lemma AndroidSmaliLabel()
    ensures Normalise("android-smali-x") == "smali x"
  {
    AndroidSmaliStripped();
    SmaliSpaced();
  }

  lemma AndroidSmaliStripped()
    ensures StripTags("android-smali-x") == "smali-x"
  {
    AndroidTagStripped("smali-x");
    assert "android-" + "smali-x" == "android-smali-x";
  }

  /** `android-` followed by seven characters not starting with a dash loses
      just the prefix. */
  lemma AndroidTagStripped(t: string)
    requires |t| == 7 && t[0] != '-'
    ensures StripTags("android-" + t) == t
  {
    var s := "android-" + t;
    assert s[..8] == "android-" && s[8..] == t;
    assert !StartsWith(t, "-strict") && !StartsWith(t, "android-");
    ShortUntouched(t[1..]);
    assert StripTags(t) == [t[0]] + t[1..] == t;
  }

  lemma SmaliSpaced()
    ensures DashesToSpaces("smali-x") == "smali x"
  {
    var r := DashesToSpaces("smali-x");
    assert r[0] == 's' && r[1] == 'm' && r[2] == 'a' && r[3] == 'l' && r[4] == 'i' && r[5] == ' ' && r[6] == 'x';
  }
}
