/** The parser for grep output, with the regular expression's leftmost, lazy path, and the
    records whose printed form it reads back. */
module Grep {
  import opened Wrappers
  import opened Numerals
  import opened Text

  datatype Kind = Match | Context

  datatype Record = Record(path: string, line: nat, text: string, kind: Kind)

  // --- the regular expression ^(.*?)([:\-])(\d+)([:\-])\s?(.*)$ ---

  predicate IsSep(c: char) {
    c == ':' || c == '-'
  }

  /** What the dot does not match. */
  predicate IsTerminator(c: char) {
    c == '\n' || c == '\r' || c as int == 0x2028 || c as int == 0x2029
  }

  predicate OneLine(s: string) {
    forall i :: 0 <= i < |s| ==> !IsTerminator(s[i])
  }

  /** The end of the run of digits that starts at the given place. */
  function DigitRunEnd(s: string, from: nat): (end: nat)
    requires from <= |s|
    ensures from <= end <= |s| && AllDigits(s[from..end])
    ensures end < |s| ==> !IsDigit(s[end])
    decreases |s| - from
  {
    if from < |s| && IsDigit(s[from]) then
      var end := DigitRunEnd(s, from + 1);
      assert s[from..end] == [s[from]] + s[from + 1..end];
      end
    else from
  }

  /** A separator, digits and a separator, from place k on. */
  predicate NumberAt(s: string, k: nat) {
    && k < |s| && IsSep(s[k])
    && var end := DigitRunEnd(s, k + 1); k + 1 < end < |s| && IsSep(s[end])
  }

  /** The text behind the second separator, less one white space character. */
  function Body(tail: string): string {
    if tail != "" && IsJsSpace(tail[0]) then tail[1..] else tail
  }

  /** The expression matches with a path of length k. */
  predicate MatchAt(s: string, k: nat) {
    && NumberAt(s, k)
    && OneLine(s[..k])
    && OneLine(Body(s[DigitRunEnd(s, k + 1) + 1..]))
  }

  function RecordAt(s: string, k: nat): Record
    requires NumberAt(s, k)
  {
    var end := DigitRunEnd(s, k + 1);
    Record(s[..k], ParseDecimal(s[k + 1..end]), Body(s[end + 1..]),
           if s[k] == '-' || s[end] == '-' then Context else Match)
  }

  /** The lazy group takes the shortest path that lets the rest match. */
  function ParseFrom(s: string, k: nat): (r: Option<Record>)
    requires k <= |s|
    ensures r.Some? ==> OneLine(r.value.path) && OneLine(r.value.text)
    decreases |s| - k
  {
    if MatchAt(s, k) then Some(RecordAt(s, k))
    else if k < |s| then ParseFrom(s, k + 1)
    else None
  }

  function ParseLine(s: string): Option<Record> {
    ParseFrom(s, 0)
  }

  // --- whole outputs ---

  function DropReturn(s: string): string {
    if s != "" && s[|s| - 1] == '\r' then s[..|s| - 1] else s
  }

  /** split(/\r?\n/). */
  function SplitLines(s: string): seq<string>
    decreases |s|
  {
    var i := IndexOf('\n', s);
    if i == |s| then [s] else [DropReturn(s[..i])] + SplitLines(s[i + 1..])
  }

  function ParseLines(lines: seq<string>): (rs: seq<Record>)
    ensures |rs| <= |lines|
    ensures forall i :: 0 <= i < |rs| ==> OneLine(rs[i].path) && OneLine(rs[i].text)
  {
    if lines == [] then []
    else
      var r := ParseLine(lines[0]);
      (if r.Some? then [r.value] else []) + ParseLines(lines[1..])
  }

  const NO_MATCHES := "No matches found"

  function Parse(text: string): seq<Record> {
    var trimmed := Trim(IsJsSpace, text);
    if trimmed == "" || trimmed == NO_MATCHES then [] else ParseLines(SplitLines(trimmed))
  }

  lemma ParseLinesStep(before: seq<Record>, lines: seq<string>)
    requires lines != []
    ensures before + ParseLines(lines)
         == (if ParseLine(lines[0]).Some? then before + [ParseLine(lines[0]).value] else before) + ParseLines(lines[1..])
  {
    hide ParseLine;
  }

  /** The loop of the source over the lines. */
  method ParseGrepMatches(text: string) returns (matches: seq<Record>)
    ensures matches == Parse(text)
  {
    hide Trim, SplitLines, ParseLine, ParseLines;
    var trimmed := Trim(IsJsSpace, text);
    if trimmed == "" || trimmed == NO_MATCHES {
      return [];
    }
    matches := [];
    var lines := SplitLines(trimmed);
    for i := 0 to |lines|
      invariant matches + ParseLines(lines[i..]) == ParseLines(lines)
    {
      var m := ParseLine(lines[i]);
      ParseLinesStep(matches, lines[i..]);
      assert lines[i..][1..] == lines[i + 1..];
      if m.Some? {
        matches := matches + [m.value];
      }
    }
    assert ParseLines(lines[|lines|..]) == [] by { NoLines(); }
  }

  lemma NoLines()
    ensures ParseLines([]) == []
  {
  }

  // --- printing ---

  function Sep(kind: Kind): char {
    if kind.Match? then ':' else '-'
  }

  function LineOf(path: string, sep: char, number: nat, tail: string): string {
    path + [sep] + Decimal(number) + [sep] + tail
  }

  /** path:line: text, or path-line- text. */
  function PrintRecord(r: Record): string {
    LineOf(r.path, Sep(r.kind), r.line, " " + r.text)
  }

  function PrintAll(rs: seq<Record>): string {
    Join(seq(|rs|, i requires 0 <= i < |rs| => PrintRecord(rs[i])), "\n")
  }

  // --- one line ---

  /** No separator-digits-separator starts inside the path, its own separator included. */
  predicate NoEarlierNumber(path: string, sep: char) {
    forall k :: 0 <= k < |path| ==> !NumberAt(path + [sep], k)
  }

  lemma {:induction false} DigitRunEndAt(s: string, from: nat, end: nat)
    requires from <= end <= |s| && (forall i :: from <= i < end ==> IsDigit(s[i]))
    requires end < |s| ==> !IsDigit(s[end])
    ensures DigitRunEnd(s, from) == end
    decreases end - from
  {
    if from < end { DigitRunEndAt(s, from + 1, end); }
  }

  lemma {:induction false} DigitRunStops(s: string, from: nat, stop: nat)
    requires from <= stop < |s| && !IsDigit(s[stop])
    ensures DigitRunEnd(s, from) <= stop
    decreases stop - from
  {
    if from < stop { DigitRunStops(s, from + 1, stop); }
  }

  /** Whether a number starts inside the path is decided by the path and its separator. */
  lemma NumberInsidePath(path: string, sep: char, rest: string, k: nat)
    requires IsSep(sep) && k < |path|
    ensures NumberAt(path + [sep] + rest, k) <==> NumberAt(path + [sep], k)
  {
    var short, long := path + [sep], path + [sep] + rest;
    var end := DigitRunEnd(short, k + 1);
    assert long[..|short|] == short;
    assert short[|path|] == sep;
    DigitRunStops(short, k + 1, |path|);
    forall i | k + 1 <= i < end ensures IsDigit(long[i]) {
      assert long[i] == short[i] == short[k + 1..end][i - k - 1];
    }
    assert long[end] == short[end];
    DigitRunEndAt(long, k + 1, end);
  }

  /** Where the parts of a line are. */
  lemma LineLayout(path: string, sep: char, number: nat, tail: string)
    requires IsSep(sep)
    ensures var s, k, end := LineOf(path, sep, number, tail), |path|, |path| + 1 + |Decimal(number)|;
      && k + 1 < end < |s| && s[k] == sep && s[end] == sep
      && s[..k] == path && s[k + 1..end] == Decimal(number) && s[end + 1..] == tail
      && forall i :: k + 1 <= i < end ==> IsDigit(s[i])
  {
    hide Decimal, DigitCount;
    var s, d := LineOf(path, sep, number, tail), Decimal(number);
    assert forall i :: |path| + 1 <= i < |path| + 1 + |d| ==> s[i] == d[i - |path| - 1];
  }

  lemma RecordWithEnd(s: string, k: nat, end: nat)
    requires k + 1 < end < |s| && IsSep(s[k]) && IsSep(s[end]) && DigitRunEnd(s, k + 1) == end
    ensures NumberAt(s, k) && AllDigits(s[k + 1..end])
    ensures RecordAt(s, k)
         == Record(s[..k], ParseDecimal(s[k + 1..end]), Body(s[end + 1..]), if s[k] == '-' || s[end] == '-' then Context else Match)
  {
    hide Body, ParseDecimal, DigitCount;
  }

  /** At the end of the path stands the number of the line. */
  lemma NumberAfterPath(path: string, sep: char, number: nat, tail: string)
    requires IsSep(sep)
    ensures var s := LineOf(path, sep, number, tail);
      && NumberAt(s, |path|)
      && RecordAt(s, |path|) == Record(path, number, Body(tail), if sep == '-' then Context else Match)
  {
    hide Decimal, Body, ParseDecimal, DigitCount, LineOf, NumberAt, RecordAt, DigitRunEnd, AllDigits;
    var s, end := LineOf(path, sep, number, tail), |path| + 1 + |Decimal(number)|;
    LineLayout(path, sep, number, tail);
    DigitRunEndAt(s, |path| + 1, end);
    RecordWithEnd(s, |path|, end);
    ParseOfDecimal(number);
  }

  lemma TailAfterNumber(path: string, sep: char, number: nat, tail: string)
    requires IsSep(sep)
    ensures var s := LineOf(path, sep, number, tail);
      var end := |path| + 1 + |Decimal(number)|;
      |path| + 1 <= end < |s| && DigitRunEnd(s, |path| + 1) == end && s[end + 1..] == tail
  {
    hide Decimal, DigitCount, LineOf, DigitRunEnd, AllDigits;
    LineLayout(path, sep, number, tail);
    DigitRunEndAt(LineOf(path, sep, number, tail), |path| + 1, |path| + 1 + |Decimal(number)|);
  }

  /** The search finds the first place that matches. */
  lemma {:induction false} ParseFromFirst(s: string, from: nat, k: nat)
    requires from <= k <= |s| && MatchAt(s, k)
    requires forall i :: from <= i < k ==> !MatchAt(s, i)
    ensures ParseFrom(s, from) == Some(RecordAt(s, k))
    decreases k - from
  {
    hide MatchAt, RecordAt;
    if from < k { ParseFromFirst(s, from + 1, k); }
  }

  lemma {:induction false} ParseFromAtMost(s: string, from: nat, k: nat)
    requires from <= k <= |s| && MatchAt(s, k)
    ensures ParseFrom(s, from).Some? && |ParseFrom(s, from).value.path| <= k
    decreases k - from
  {
    hide MatchAt;
    if MatchAt(s, from) {
      PathOfRecordAt(s, from);
    } else {
      ParseFromAtMost(s, from + 1, k);
    }
  }

  lemma PathOfRecordAt(s: string, k: nat)
    requires MatchAt(s, k)
    ensures NumberAt(s, k) && |RecordAt(s, k).path| == k
  {
  }

  lemma OneLineParts(path: string, sep: char, number: nat, tail: string)
    requires OneLine(path) && OneLine(tail) && IsSep(sep)
    ensures OneLine(LineOf(path, sep, number, tail)) && OneLine(Body(tail))
  {
    hide Decimal;
    assert forall i :: 0 <= i < |Decimal(number)| ==> IsDigit(Decimal(number)[i]);
  }

  lemma OneLineSlice(s: string, a: nat, b: nat)
    requires OneLine(s) && a <= b <= |s|
    ensures OneLine(s[a..b]) && OneLine(Body(s[a..b]))
  {
  }

  /** A line made of a path, a number and a tail parses to a given record exactly when the
      path holds no earlier number and path, tail and kind are the record's. */
  lemma ParseLineOf(path: string, tail: string, r: Record)
    requires OneLine(path) && OneLine(tail) && |path| <= |r.path|
    ensures ParseLine(LineOf(path, Sep(r.kind), r.line, tail)) == Some(r)
       <==> NoEarlierNumber(path, Sep(r.kind)) && path == r.path && Body(tail) == r.text
  {
    hide NumberAt, RecordAt, ParseFrom, LineOf, DigitRunEnd, OneLine, Body, Decimal;
    var sep := Sep(r.kind);
    var s := LineOf(path, sep, r.line, tail);
    var rest := Decimal(r.line) + [sep] + tail;
    LineParts(path, sep, r.line, tail);
    NumberAfterPath(path, sep, r.line, tail);
    TailAfterNumber(path, sep, r.line, tail);
    OneLineParts(path, sep, r.line, tail);
    assert MatchAt(s, |path|);
    forall k | 0 <= k < |path| ensures MatchAt(s, k) <==> NumberAt(path + [sep], k) {
      NumberInsidePath(path, sep, rest, k);
      if NumberAt(s, k) { MatchFromNumber(s, k); }
    }
    if NoEarlierNumber(path, sep) {
      ParseFromFirst(s, 0, |path|);
    } else {
      var k :| 0 <= k < |path| && NumberAt(path + [sep], k);
      ParseFromAtMost(s, 0, k);
    }
  }

  lemma LineParts(path: string, sep: char, number: nat, tail: string)
    ensures LineOf(path, sep, number, tail) == path + [sep] + (Decimal(number) + [sep] + tail)
    ensures LineOf(path, sep, number, tail)[..|path|] == path
    ensures |path| < |LineOf(path, sep, number, tail)|
  {
    hide Decimal;
  }

  lemma MatchFromNumber(s: string, k: nat)
    requires OneLine(s) && NumberAt(s, k)
    ensures MatchAt(s, k)
  {
    OneLineSlice(s, 0, k);
    OneLineSlice(s, DigitRunEnd(s, k + 1) + 1, |s|);
  }

  /** Any line of the form path, separator, number, separator, tail, with no earlier number in the
      path: it is a match exactly when both separators are colons, and its text is the tail less
      one leading white space character. */
  lemma LineMeans(path: string, first: char, number: nat, second: char, tail: string)
    requires IsSep(first) && IsSep(second) && OneLine(path) && OneLine(tail) && NoEarlierNumber(path, first)
    ensures var r := ParseLine(path + [first] + Decimal(number) + [second] + tail);
      && r.Some? && r.value.path == path && r.value.line == number
      && (r.value.kind == Match <==> first == ':' && second == ':')
      && (tail == "" || !IsJsSpace(tail[0]) ==> r.value.text == tail)
      && (tail != "" && IsJsSpace(tail[0]) ==> [tail[0]] + r.value.text == tail)
  {
    LineParses(path, first, number, second, tail);
    BodyMeans(tail);
    hide Decimal, ParseLine, NoEarlierNumber, Body, OneLine;
  }

  lemma LineParses(path: string, first: char, number: nat, second: char, tail: string)
    requires IsSep(first) && IsSep(second) && OneLine(path) && OneLine(tail) && NoEarlierNumber(path, first)
    ensures ParseLine(path + [first] + Decimal(number) + [second] + tail)
         == Some(Record(path, number, Body(tail), if first == '-' || second == '-' then Context else Match))
  {
    hide Decimal, DigitCount, DigitRunEnd, RecordAt, NumberAt, ParseLine, MatchAt, NoEarlierNumber, Body, ParseDecimal, AllDigits,
         OneLine;
    var s, k, end := path + [first] + Decimal(number) + [second] + tail, |path|, |path| + 1 + |Decimal(number)|;
    MixedLayout(path, first, number, second, tail);
    BodyMeans(tail);
    DigitRunEndAt(s, k + 1, end);
    RecordWithEnd(s, k, end);
    ParseOfDecimal(number);
    MatchWithEnd(s, k, end);
    ThreeParts(path + [first], Decimal(number), [second], tail);
    FirstMatch(path, first, Decimal(number) + [second] + tail);
  }

  lemma ThreeParts(a: string, b: string, c: string, d: string)
    ensures a + b + c + d == a + (b + c + d)
  {
  }

  lemma MatchWithEnd(s: string, k: nat, end: nat)
    requires k + 1 < end < |s| && IsSep(s[k]) && IsSep(s[end]) && DigitRunEnd(s, k + 1) == end
    requires OneLine(s[..k]) && OneLine(Body(s[end + 1..]))
    ensures MatchAt(s, k)
  {
    hide DigitRunEnd, OneLine, Body;
  }

  /** Where the path holds no earlier number, the match behind it is the first. */
  lemma FirstMatch(path: string, first: char, rest: string)
    requires IsSep(first) && NoEarlierNumber(path, first) && MatchAt(path + [first] + rest, |path|)
    ensures ParseLine(path + [first] + rest) == Some(RecordAt(path + [first] + rest, |path|))
  {
    hide NumberAt, RecordAt, ParseFrom, DigitRunEnd, OneLine, Body;
    var s := path + [first] + rest;
    forall i | 0 <= i < |path| ensures !MatchAt(s, i) {
      NumberInsidePath(path, first, rest, i);
    }
    ParseFromFirst(s, 0, |path|);
  }

  lemma MixedLayout(path: string, first: char, number: nat, second: char, tail: string)
    requires IsSep(first) && IsSep(second)
    ensures var s, k, end := path + [first] + Decimal(number) + [second] + tail, |path|, |path| + 1 + |Decimal(number)|;
      && k + 1 < end < |s| && s[k] == first && s[end] == second
      && s[..k] == path && s[k + 1..end] == Decimal(number) && s[end + 1..] == tail
      && forall i :: k + 1 <= i < end ==> IsDigit(s[i])
  {
    hide Decimal, DigitCount;
    var s, d := path + [first] + Decimal(number) + [second] + tail, Decimal(number);
    assert forall i :: |path| + 1 <= i < |path| + 1 + |d| ==> s[i] == d[i - |path| - 1];
  }

  lemma BodyMeans(tail: string)
    ensures tail == "" || !IsJsSpace(tail[0]) ==> Body(tail) == tail
    ensures tail != "" && IsJsSpace(tail[0]) ==> [tail[0]] + Body(tail) == tail
    ensures OneLine(tail) ==> OneLine(Body(tail))
  {
  }

  // --- the lines of a trimmed output ---

  lemma SplitHead(head: string, tail: string)
    requires OneLine(head)
    ensures SplitLines(head + "\n" + tail) == [head] + SplitLines(tail)
  {
    var s := head + "\n" + tail;
    assert s[..|head|] == head && s[|head|] == '\n' && s[|head| + 1..] == tail;
    IndexOfAt('\n', s, |head|);
  }

  /** A carriage return before a line feed belongs to the line break. */
  lemma SplitCrLf(head: string, tail: string)
    requires OneLine(head)
    ensures SplitLines(head + "\r\n" + tail) == [head] + SplitLines(tail)
  {
    var s := head + "\r\n" + tail;
    var line := head + "\r";
    assert s == line + ("\n" + tail);
    assert s[..|line|] == line && s[|line|] == '\n' && s[|line| + 1..] == tail;
    assert line[..|line| - 1] == head && line[|line| - 1] == '\r';
    IndexOfAt('\n', s, |line|);
  }

  lemma SplitSingle(line: string)
    requires OneLine(line)
    ensures SplitLines(line) == [line]
  {
    IndexOfAt('\n', line, |line|);
  }

  /** Splitting undoes joining, for lines without terminators. */
  lemma {:induction false} SplitOfJoin(lines: seq<string>)
    requires lines != [] && forall i :: 0 <= i < |lines| ==> OneLine(lines[i])
    ensures SplitLines(Join(lines, "\n")) == lines
  {
    hide SplitLines, OneLine;
    if |lines| == 1 {
      SplitSingle(lines[0]);
    } else {
      SplitOfJoin(lines[1..]);
      SplitHead(lines[0], Join(lines[1..], "\n"));
    }
  }

  lemma ConsSame(r: Option<Record>, rest: seq<Record>, rs: seq<Record>)
    requires rs != [] && |rest| < |rs|
    ensures (if r.Some? then [r.value] else []) + rest == rs <==> r == Some(rs[0]) && rest == rs[1..]
  {
    if r.Some? {
      assert ([r.value] + rest)[1..] == rest;
    }
  }

  lemma ForallCons(lines: seq<string>, rs: seq<Record>)
    requires |lines| == |rs| > 0
    ensures (forall i :: 0 <= i < |lines| ==> ParseLine(lines[i]) == Some(rs[i]))
       <==> ParseLine(lines[0]) == Some(rs[0]) && forall i :: 0 <= i < |lines[1..]| ==> ParseLine(lines[1..][i]) == Some(rs[1..][i])
  {
    hide ParseLine;
    assert forall i :: 0 <= i < |rs| - 1 ==> lines[1..][i] == lines[i + 1] && rs[1..][i] == rs[i + 1];
    assert forall i :: 0 < i < |rs| ==> lines[i] == lines[1..][i - 1] && rs[i] == rs[1..][i - 1];
  }

  /** All lines parse, and to these records. */
  lemma {:induction false} ParseLinesAll(lines: seq<string>, rs: seq<Record>)
    requires |lines| == |rs|
    ensures ParseLines(lines) == rs <==> forall i :: 0 <= i < |lines| ==> ParseLine(lines[i]) == Some(rs[i])
  {
    if lines != [] {
      ParseLinesAll(lines[1..], rs[1..]);
      ForallCons(lines, rs);
      hide ParseLine;
      ConsSame(ParseLine(lines[0]), ParseLines(lines[1..]), rs);
    }
  }

  lemma {:induction false} JoinFirst(left: string, lines: seq<string>)
    requires lines != []
    ensures Join(lines[0 := left + lines[0]], "\n") == left + Join(lines, "\n")
  {
    var longer := lines[0 := left + lines[0]];
    if |lines| > 1 {
      assert longer[1..] == lines[1..];
      assert left + lines[0] + "\n" + Join(lines[1..], "\n") == left + (lines[0] + "\n" + Join(lines[1..], "\n"));
    }
  }

  lemma {:induction false} JoinLast(right: string, lines: seq<string>)
    requires lines != []
    ensures Join(lines[|lines| - 1 := lines[|lines| - 1] + right], "\n") == Join(lines, "\n") + right
  {
    var longer := lines[|lines| - 1 := lines[|lines| - 1] + right];
    if |lines| > 1 {
      assert longer[1..] == lines[1..][|lines| - 2 := lines[|lines| - 1] + right];
      JoinLast(right, lines[1..]);
      assert lines[0] + "\n" + (Join(lines[1..], "\n") + right) == (lines[0] + "\n" + Join(lines[1..], "\n")) + right;
    }
  }

  lemma {:induction false} JoinEnds(lines: seq<string>)
    requires lines != [] && lines[0] != "" && lines[|lines| - 1] != ""
    ensures Join(lines, "\n") != "" && Join(lines, "\n")[0] == lines[0][0]
    ensures Join(lines, "\n")[|Join(lines, "\n")| - 1] == lines[|lines| - 1][|lines[|lines| - 1]| - 1]
    ensures lines[0] <= Join(lines, "\n")
  {
    if |lines| > 1 { JoinLastChar(lines); }
  }

  lemma {:induction false} JoinLastChar(lines: seq<string>)
    requires lines != [] && lines[|lines| - 1] != ""
    ensures Join(lines, "\n") != "" && Join(lines, "\n")[|Join(lines, "\n")| - 1] == lines[|lines| - 1][|lines[|lines| - 1]| - 1]
  {
    if |lines| > 1 { JoinLastChar(lines[1..]); }
  }

  /** What trimming leaves of the path of record i of n, and of its tail. */
  function PathLeft(r: Record, i: nat): string {
    if i == 0 then DropLeft(IsJsSpace, r.path) else r.path
  }

  function TailLeft(r: Record, i: nat, n: nat): string {
    if i + 1 == n then DropRight(IsJsSpace, " " + r.text) else " " + r.text
  }

  function LinesLeft(rs: seq<Record>): (lines: seq<string>)
    ensures |lines| == |rs|
  {
    seq(|rs|, i requires 0 <= i < |rs| =>
      LineOf(PathLeft(rs[i], i), Sep(rs[i].kind), rs[i].line, TailLeft(rs[i], i, |rs|)))
  }

  lemma LineGrows(left: string, path: string, sep: char, number: nat, tail: string, right: string)
    ensures LineOf(left + path, sep, number, tail) == left + LineOf(path, sep, number, tail)
    ensures LineOf(path, sep, number, tail + right) == LineOf(path, sep, number, tail) + right
  {
    hide Decimal;
  }

  lemma SepNotSpace(kind: Kind)
    ensures !IsJsSpace(Sep(kind)) && IsSep(Sep(kind))
  {
  }

  /** Trimming the printed output trims the first path and the last tail and nothing else. */
  lemma TrimPrinted(rs: seq<Record>)
    requires rs != []
    ensures Trim(IsJsSpace, PrintAll(rs)) == Join(LinesLeft(rs), "\n")
    ensures Join(LinesLeft(rs), "\n") != "" && Join(LinesLeft(rs), "\n") != NO_MATCHES
  {
    hide LineOf, IsJsSpace, Join, Trim, DropLeft, DropRight, Sep, LeftRun, EndRun, PathLeft, TailLeft, PrintAll;
    var n, first, last := |rs|, rs[0], rs[|rs| - 1];
    var left := LeftRun(IsJsSpace, first.path);
    var right := EndRun(IsJsSpace, " " + last.text);
    var lines := LinesLeft(rs);
    EndsSplit(IsJsSpace, first.path);
    EndsSplit(IsJsSpace, " " + last.text);
    SepNotSpace(first.kind);
    SepNotSpace(last.kind);
    FirstAndLast(rs);
    PrintedWhole(rs, left, right);
    JoinEnds(lines);
    TrimUnique(IsJsSpace, left, Join(lines, "\n"), right);
    assert Sep(first.kind) in Join(lines, "\n");
    SepNotInMarker(first.kind);
  }

  lemma SepNotInMarker(kind: Kind)
    ensures Sep(kind) !in NO_MATCHES
  {
  }

  /** The white space that trimming takes off the back. */
  function EndRun(space: char -> bool, s: string): string {
    s[|DropRight(space, s)|..]
  }

  lemma EndsSplit(space: char -> bool, s: string)
    ensures forall i :: 0 <= i < |LeftRun(space, s)| ==> space(LeftRun(space, s)[i])
    ensures s == LeftRun(space, s) + DropLeft(space, s)
    ensures forall i :: 0 <= i < |EndRun(space, s)| ==> space(EndRun(space, s)[i])
    ensures s == DropRight(space, s) + EndRun(space, s)
  {
    hide DropLeft, DropRight;
    assert s == s[..|LeftRun(space, s)|] + s[|LeftRun(space, s)|..];
    var k := |DropRight(space, s)|;
    assert s == s[..k] + s[k..];
    assert forall i :: 0 <= i < |EndRun(space, s)| ==> EndRun(space, s)[i] == s[k + i];
  }

  /** The first line left starts, and the last ends, with a character that is not space. */
  lemma FirstAndLast(rs: seq<Record>)
    requires rs != []
    ensures var lines := LinesLeft(rs); var a, b := lines[0], lines[|rs| - 1];
      a != "" && b != "" && !IsJsSpace(a[0]) && !IsJsSpace(b[|b| - 1]) && Sep(rs[0].kind) in a
  {
    hide LineOf, IsJsSpace, DropLeft, DropRight, Sep;
    var n, first, last := |rs|, rs[0], rs[|rs| - 1];
    SepNotSpace(first.kind);
    SepNotSpace(last.kind);
    LineStart(IsJsSpace, PathLeft(first, 0), Sep(first.kind), first.line, TailLeft(first, 0, n));
    LineStop(IsJsSpace, PathLeft(last, n - 1), Sep(last.kind), last.line, TailLeft(last, n - 1, n));
  }

  lemma LineStart(space: char -> bool, path: string, sep: char, number: nat, tail: string)
    requires !space(sep) && (path == "" || !space(path[0]))
    ensures var s := LineOf(path, sep, number, tail); s != "" && !space(s[0]) && sep in s
  {
    hide Decimal;
    var s := LineOf(path, sep, number, tail);
    assert s[|path|] == sep;
  }

  lemma LineStop(space: char -> bool, path: string, sep: char, number: nat, tail: string)
    requires !space(sep) && (tail == "" || !space(tail[|tail| - 1]))
    ensures var s := LineOf(path, sep, number, tail); s != "" && !space(s[|s| - 1])
  {
    hide Decimal;
    var s := LineOf(path, sep, number, tail);
    assert tail == "" ==> s[|s| - 1] == sep;
  }

  /** The printed output is what trimming leaves, between what it takes. */
  lemma PrintedWhole(rs: seq<Record>, left: string, right: string)
    requires rs != [] && left == LeftRun(IsJsSpace, rs[0].path) && right == EndRun(IsJsSpace, " " + rs[|rs| - 1].text)
    ensures PrintAll(rs) == left + Join(LinesLeft(rs), "\n") + right
  {
    hide LineOf, IsJsSpace, DropLeft, DropRight, Sep, PathLeft, TailLeft, LeftRun, EndRun, Join, PrintRecord;
    var n, lines := |rs|, LinesLeft(rs);
    var printed := seq(n, i requires 0 <= i < n => PrintRecord(rs[i]));
    forall i | 0 <= i < n
      ensures (if i == 0 then left else "") + lines[i] + (if i == n - 1 then right else "") == printed[i]
    {
      WholeLine(rs[i], i, n, if i == 0 then left else "", if i == n - 1 then right else "");
    }
    JoinPutBack(lines, left, right, printed);
  }

  /** Putting text before the first and behind the last line puts it around the whole. */
  lemma JoinPutBack(lines: seq<string>, left: string, right: string, whole: seq<string>)
    requires |whole| == |lines| > 0
    requires forall i :: 0 <= i < |lines| ==>
      (if i == 0 then left else "") + lines[i] + (if i == |lines| - 1 then right else "") == whole[i]
    ensures Join(whole, "\n") == left + Join(lines, "\n") + right
  {
    hide Join;
    var n := |lines|;
    var withLeft := lines[0 := left + lines[0]];
    forall i | 0 <= i < n ensures withLeft[n - 1 := withLeft[n - 1] + right][i] == whole[i] {
      EmptyEnds(lines[i], if i == 0 then left else "", if i == n - 1 then right else "");
    }
    assert whole == withLeft[n - 1 := withLeft[n - 1] + right];
    JoinFirst(left, lines);
    JoinLast(right, withLeft);
  }

  /** Line i of n with what trimming took from it put back. */
  lemma WholeLine(r: Record, i: nat, n: nat, left: string, right: string)
    requires i < n
    requires left == if i == 0 then LeftRun(IsJsSpace, r.path) else ""
    requires right == if i == n - 1 then EndRun(IsJsSpace, " " + r.text) else ""
    ensures left + LineOf(PathLeft(r, i), Sep(r.kind), r.line, TailLeft(r, i, n)) + right == PrintRecord(r)
  {
    hide LineOf, IsJsSpace, DropLeft, DropRight, Sep, LeftRun, EndRun;
    EndsSplit(IsJsSpace, r.path);
    EndsSplit(IsJsSpace, " " + r.text);
    var path, tail := PathLeft(r, i), TailLeft(r, i, n);
    EmptyEnds(path, left, right);
    EmptyEnds(tail, left, right);
    LineAround(left, path, Sep(r.kind), r.line, tail, right, r.path, " " + r.text);
  }

  lemma LineAround(left: string, path: string, sep: char, number: nat, tail: string, right: string, p: string, t: string)
    requires left + path == p && tail + right == t
    ensures left + LineOf(path, sep, number, tail) + right == LineOf(p, sep, number, t)
  {
    LineGrows(left, path, sep, number, tail, right);
    LineGrows(left, path, sep, number, t, right);
    hide LineOf;
    EmptyEnds(LineOf(path, sep, number, tail), left, right);
  }

  lemma EmptyEnds(s: string, left: string, right: string)
    ensures left == "" ==> left + s == s && left + s + right == s + right
    ensures right == "" ==> s + right == s && left + s + right == left + s
    ensures left + (s + right) == left + s + right
  {
  }

  // --- the round trip ---

  predicate Terminatorless(rs: seq<Record>) {
    forall i :: 0 <= i < |rs| ==> OneLine(rs[i].path) && OneLine(rs[i].text)
  }

  /** What a caller can look at before printing: no line breaks in paths and texts, no number
      between separators inside a path, no white space at the start of the first path, none
      at the end of the last text. */
  predicate Printable(rs: seq<Record>) {
    && Terminatorless(rs)
    && (forall i :: 0 <= i < |rs| ==> NoEarlierNumber(rs[i].path, Sep(rs[i].kind)))
    && (rs != [] && rs[0].path != "" ==> !IsJsSpace(rs[0].path[0]))
    && (rs != [] && rs[|rs| - 1].text != "" ==> !IsJsSpace(rs[|rs| - 1].text[|rs[|rs| - 1].text| - 1]))
  }

  lemma DropLeftSame(space: char -> bool, s: string)
    ensures DropLeft(space, s) == s <==> s == "" || !space(s[0])
  {
  }

  /** The tail that trimming leaves still holds the text, unless the text ends in space. */
  lemma BodyOfTail(text: string)
    ensures Body(" " + text) == text
    ensures Body(DropRight(IsJsSpace, " " + text)) == text <==> text == "" || !IsJsSpace(text[|text| - 1])
  {
    hide IsJsSpace, DropRight, Body;
    SpaceIsSpace();
    BodyOfShorter(" " + text, text, |DropRight(IsJsSpace, " " + text)|);
    TrimmedTail(IsJsSpace, text);
  }

  lemma BodyOfShorter(tail: string, text: string, n: nat)
    requires tail == " " + text && n <= |tail|
    ensures Body(tail) == text
    ensures Body(tail[..n]) == text <==> n == |tail| || text == ""
  {
    hide IsJsSpace;
    SpaceIsSpace();
    assert tail[1..] == text && tail[..|tail|] == tail;
    assert n > 0 ==> tail[..n][1..] == text[..n - 1];
  }

  /** Nothing is trimmed behind a text that does not end in space; a space alone goes whole. */
  lemma TrimmedTail(space: char -> bool, text: string)
    requires space(' ')
    ensures var r := DropRight(space, " " + text);
      (|r| == 1 + |text| <==> text != "" && !space(text[|text| - 1])) && (text == "" ==> |r| == 0)
  {
    var tail := " " + text;
    assert tail[|tail| - 1] == if text == "" then ' ' else text[|text| - 1];
  }

  lemma SpaceIsSpace()
    ensures IsJsSpace(' ')
  {
  }

  lemma OneLineTrimmed(space: char -> bool, s: string)
    requires OneLine(s)
    ensures OneLine(DropLeft(space, s)) && OneLine(DropRight(space, s))
  {
    hide DropLeft, DropRight, IsTerminator;
    var l, r := DropLeft(space, s), DropRight(space, s);
    assert forall j :: 0 <= j < |l| ==> l[j] == s[|s| - |l| + j];
    assert forall j :: 0 <= j < |r| ==> r[j] == s[j];
  }

  lemma OneLineLeft(r: Record, i: nat, n: nat)
    requires OneLine(r.path) && OneLine(r.text)
    ensures OneLine(PathLeft(r, i)) && OneLine(TailLeft(r, i, n)) && |PathLeft(r, i)| <= |r.path|
  {
    hide IsJsSpace, DropLeft, DropRight;
    assert OneLine(" " + r.text);
    OneLineTrimmed(IsJsSpace, r.path);
    OneLineTrimmed(IsJsSpace, " " + r.text);
  }

  /** Which records survive: record i of n, on the line that trimming leaves of it. */
  lemma LineRoundTrip(r: Record, i: nat, n: nat)
    requires i < n && OneLine(r.path) && OneLine(r.text)
    ensures ParseLine(LineOf(PathLeft(r, i), Sep(r.kind), r.line, TailLeft(r, i, n))) == Some(r)
       <==> NoEarlierNumber(r.path, Sep(r.kind))
            && (i == 0 && r.path != "" ==> !IsJsSpace(r.path[0]))
            && (i + 1 == n && r.text != "" ==> !IsJsSpace(r.text[|r.text| - 1]))
  {
    hide LineOf, ParseLine, IsJsSpace, Body, DropLeft, DropRight, NumberAt, NoEarlierNumber, PathLeft, TailLeft, OneLine;
    OneLineLeft(r, i, n);
    ParseLineOf(PathLeft(r, i), TailLeft(r, i, n), r);
    PathSurvives(r, i);
    TextSurvives(r, i, n);
  }

  lemma PathSurvives(r: Record, i: nat)
    ensures PathLeft(r, i) == r.path <==> (i == 0 && r.path != "" ==> !IsJsSpace(r.path[0]))
  {
    hide IsJsSpace;
    DropLeftSame(IsJsSpace, r.path);
  }

  lemma TextSurvives(r: Record, i: nat, n: nat)
    ensures Body(TailLeft(r, i, n)) == r.text <==> (i + 1 == n && r.text != "" ==> !IsJsSpace(r.text[|r.text| - 1]))
  {
    hide IsJsSpace, Body, DropRight;
    BodyOfTail(r.text);
  }

  lemma LinesLeftOneLine(rs: seq<Record>)
    requires Terminatorless(rs)
    ensures forall i :: 0 <= i < |rs| ==> OneLine(LinesLeft(rs)[i])
  {
    hide LineOf, IsJsSpace, PathLeft, TailLeft, Sep;
    forall i | 0 <= i < |rs| ensures OneLine(LinesLeft(rs)[i]) {
      OneLineLeft(rs[i], i, |rs|);
      SepNotSpace(rs[i].kind);
      OneLineParts(PathLeft(rs[i], i), Sep(rs[i].kind), rs[i].line, TailLeft(rs[i], i, |rs|));
    }
  }

  /** Parsing gives back exactly the printable lists of records. */
  lemma RoundTrip(rs: seq<Record>)
    ensures Parse(PrintAll(rs)) == rs <==> Printable(rs)
  {
    hide PrintAll, Trim, SplitLines, ParseLine, ParseLines, Join, NoEarlierNumber, IsJsSpace, OneLine, LineOf, PathLeft, TailLeft;
    if rs == [] {
      EmptyPrint();
    } else if Terminatorless(rs) {
      var lines := LinesLeft(rs);
      TrimPrinted(rs);
      LinesLeftOneLine(rs);
      SplitOfJoin(lines);
      ParseLinesAll(lines, rs);
      forall i | 0 <= i < |rs| {
        LineRoundTrip(rs[i], i, |rs|);
      }
      assert Parse(PrintAll(rs)) == ParseLines(lines);
    }
  }

  lemma EmptyPrint()
    ensures Parse(PrintAll([])) == []
  {
  }
}
