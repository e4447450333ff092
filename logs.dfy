/** The gateway log viewer: classifying a log line by level, recognising a
    leading timestamp, splitting fetched text into lines, and the level and
    search filters with the per-level counts. */
module Logs {
  import opened Wrappers
  import Strings
  import Seqs

  datatype Level = Error | Warn | Info | Debug | Unknown

  datatype LogLine = LogLine(raw: string, level: Level, timestamp: Option<string>, message: string)

  // ----------------------------------------------------------------- levels

  /** The level of a line, decided on its lower-cased text, first rule that
      applies wins: "error" or "err " gives error, then "warn" gives warn,
      then "debug" or "trace" gives debug, then "info" or " inf " gives
      info; anything else is unknown. */
  function LevelOf(raw: string): (l: Level)
    ensures var lower := Strings.Lower(raw);
      var isError := Strings.Contains(lower, "error") || Strings.Contains(lower, "err ");
      var isWarn := Strings.Contains(lower, "warn");
      var isDebug := Strings.Contains(lower, "debug") || Strings.Contains(lower, "trace");
      var isInfo := Strings.Contains(lower, "info") || Strings.Contains(lower, " inf ");
      && (l == Error <==> isError)
      && (l == Warn <==> !isError && isWarn)
      && (l == Debug <==> !isError && !isWarn && isDebug)
      && (l == Info <==> !isError && !isWarn && !isDebug && isInfo)
      && (l == Unknown <==> !isError && !isWarn && !isDebug && !isInfo)
  {
    var lower := Strings.Lower(raw);
    if Strings.Contains(lower, "error") || Strings.Contains(lower, "err ") then Error
    else if Strings.Contains(lower, "warn") then Warn
    else if Strings.Contains(lower, "debug") || Strings.Contains(lower, "trace") then Debug
    else if Strings.Contains(lower, "info") || Strings.Contains(lower, " inf ") then Info
    else Unknown
  }

  /** Classification ignores letter case. */
  lemma LevelIgnoresCase(raw: string)
    ensures LevelOf(Strings.Upper(raw)) == LevelOf(raw)
    ensures LevelOf(Strings.Lower(raw)) == LevelOf(raw)
  {
    Strings.LowerOfUpper(raw);
    Strings.LowerIdempotent(raw);
  }

  /** An error marker anywhere wins over every other marker in the line. */
  lemma ErrorWins(before: string, after: string)
    ensures LevelOf(before + "ERROR" + after) == Error
  {
    var s := before + "ERROR" + after;
    var lower := Strings.Lower(s);
    assert lower == Strings.Lower(before) + "error" + Strings.Lower(after);
    Strings.ContainsSpliced(Strings.Lower(before), "error", Strings.Lower(after));
  }

  // ------------------------------------------------------------- timestamps

  /** The shape of the regular expression's fixed head,
      `\d{4}-\d{2}-\d{2}[T ]\d{2}:\d{2}:\d{2}`: 'd' is a digit, 'S' is 'T' or
      a space, any other character stands for itself. */
  const StampShape: string := "dddd-dd-ddSdd:dd:dd"

  predicate FitsShape(shape: char, c: char) {
    if shape == 'd' then '0' <= c <= '9'
    else if shape == 'S' then c == 'T' || c == ' '
    else c == shape
  }

  /** `raw` starts with a date, 'T' or a space, and a time of day. */
  predicate HasStampHead(raw: string) {
    |raw| >= |StampShape| && forall k :: 0 <= k < |StampShape| ==> FitsShape(StampShape[k], raw[k])
  }

  /** The characters of `[\w.:+-]`, which may follow the time of day. */
  predicate IsStampTail(c: char) {
    ('a' <= c <= 'z') || ('A' <= c <= 'Z') || ('0' <= c <= '9') || c == '_'
    || c == '.' || c == ':' || c == '+' || c == '-'
  }

  /** The length of the run of timestamp-tail characters starting at `i`. */
  function TailRun(s: string, i: nat): (n: nat)
    requires i <= |s|
    ensures i + n <= |s|
    ensures forall k :: i <= k < i + n ==> IsStampTail(s[k])
    ensures i + n == |s| || !IsStampTail(s[i + n])
    decreases |s| - i
  {
    if i < |s| && IsStampTail(s[i]) then 1 + TailRun(s, i + 1) else 0
  }

  /** The timestamp at the start of a line, as the regular expression
      captures it: the head followed by as many tail characters as there
      are, or nothing when the line does not start with a head. */
  function Timestamp(raw: string): (r: Option<string>)
    ensures r.Some? <==> HasStampHead(raw)
    ensures r.Some? ==>
      && Strings.StartsWith(raw, r.value)
      && |r.value| >= |StampShape|
      && (forall k :: |StampShape| <= k < |r.value| ==> IsStampTail(r.value[k]))
      && (|r.value| == |raw| || !IsStampTail(raw[|r.value|]))
  {
    if HasStampHead(raw) then Some(raw[..|StampShape| + TailRun(raw, |StampShape|)]) else None
  }

  // ------------------------------------------------------------------ lines

  /** One log line: its text is kept as `raw` and as `message`. */
  function ParseLine(raw: string): (l: LogLine)
    ensures l.raw == raw && l.message == raw
    ensures l.level == LevelOf(raw) && l.timestamp == Timestamp(raw)
  {
    LogLine(raw, LevelOf(raw), Timestamp(raw), raw)
  }

  function Raws(lines: seq<LogLine>): (r: seq<string>)
    ensures |r| == |lines|
    ensures forall i :: 0 <= i < |lines| ==> r[i] == lines[i].raw
  {
    seq(|lines|, i requires 0 <= i < |lines| => lines[i].raw)
  }

  /** Fetched text cut at newlines, empty pieces dropped, each piece parsed. */
  function ParseText(text: string): (r: seq<LogLine>)
    ensures Raws(r) == Seqs.Filter(Strings.Split(text, '\n'), Strings.NonEmpty)
    ensures forall i :: 0 <= i < |r| ==> r[i].raw != "" && '\n' !in r[i].raw && r[i] == ParseLine(r[i].raw)
  {
    var split := Strings.Split(text, '\n');
    var pieces := Seqs.Filter(split, Strings.NonEmpty);
    Seqs.FilterMembers(split, Strings.NonEmpty);
    assert forall i :: 0 <= i < |pieces| ==> '\n' !in pieces[i] by {
      forall i | 0 <= i < |pieces| ensures '\n' !in pieces[i] {
        assert pieces[i] in split;
      }
    }
    var r := seq(|pieces|, i requires 0 <= i < |pieces| => ParseLine(pieces[i]));
    assert Raws(r) == pieces;
    r
  }

  /** Text without blank lines is exactly its lines joined by newlines. */
  lemma ParseTextKeepsText(text: string)
    requires forall i :: 0 <= i < |Strings.Split(text, '\n')| ==> Strings.Split(text, '\n')[i] != ""
    ensures Strings.Join(Raws(ParseText(text)), '\n') == text
  {
    Seqs.FilterAll(Strings.Split(text, '\n'), Strings.NonEmpty);
    Strings.JoinSplit(text, '\n');
  }

  // -------------------------------------------------------- filter & counts

  /** The level selector: all levels, or one level. */
  datatype LevelFilter = All | Only(level: Level)

  /** A line is shown when its level passes the selector and, when a search
      is typed, its text contains the search ignoring case. */
  predicate Shown(l: LogLine, f: LevelFilter, search: string) {
    && (f.All? || l.level == f.level)
    && (search == "" || Strings.Contains(Strings.Lower(l.raw), Strings.Lower(search)))
  }

  /** The lines on screen: the shown ones, in their order. */
  function FilterLines(lines: seq<LogLine>, f: LevelFilter, search: string): (r: seq<LogLine>)
    ensures forall l :: l in r <==> l in lines && Shown(l, f, search)
    ensures Seqs.IsSubsequence(r, lines)
    ensures forall l :: multiset(r)[l] == if Shown(l, f, search) then multiset(lines)[l] else 0
    ensures f.All? && search == "" ==> r == lines
  {
    var shown := (l: LogLine) => Shown(l, f, search);
    Seqs.FilterIsSubsequence(lines, shown);
    Seqs.FilterAll(lines, shown);
    Seqs.FilterMembers(lines, shown);
    Seqs.FilterMultiset(lines, shown);
    Seqs.Filter(lines, shown)
  }

  /** The error, warning and info badges. */
  datatype Counts = Counts(error: nat, warn: nat, info: nat)

  function CountLevel(lines: seq<LogLine>, level: Level): nat {
    Seqs.Count(lines, (l: LogLine) => l.level == level)
  }

  /** Each badge counts the lines that the level selector alone would show,
      and the three together never exceed the number of lines. */
  function CountLevels(lines: seq<LogLine>): (c: Counts)
    ensures c.error == |FilterLines(lines, Only(Error), "")|
    ensures c.warn == |FilterLines(lines, Only(Warn), "")|
    ensures c.info == |FilterLines(lines, Only(Info), "")|
    ensures c.error + c.warn + c.info <= |lines|
  {
    CountsBounded(lines);
    CountMatchesFilter(lines, Error);
    CountMatchesFilter(lines, Warn);
    CountMatchesFilter(lines, Info);
    Counts(CountLevel(lines, Error), CountLevel(lines, Warn), CountLevel(lines, Info))
  }

  lemma CountMatchesFilter(lines: seq<LogLine>, level: Level)
    ensures CountLevel(lines, level) == |FilterLines(lines, Only(level), "")|
  {
    Seqs.FilterCongruent(lines, (l: LogLine) => l.level == level, (l: LogLine) => Shown(l, Only(level), ""));
  }

  lemma {:induction false} CountsBounded(lines: seq<LogLine>)
    ensures CountLevel(lines, Error) + CountLevel(lines, Warn) + CountLevel(lines, Info) <= |lines|
    decreases |lines|
  {
    if lines != [] {
      CountsBounded(lines[1..]);
    }
  }
}
