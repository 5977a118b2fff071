/** The history page: every entity's comment log is a text whose lines are
    either a header `[timestamp] text` that opens an entry, or a continuation
    of the current entry. The entries of all entities are collected and shown
    newest first. */
module History {

  import opened Wrappers
  import opened Text
  import opened JsValues
  import opened Collections
  import opened Sorting
  import opened Domain

  datatype LogEntry = LogEntry(timestamp: string, text: string, entityTitle: Value, entityId: Value)

  predicate NoTerminator(s: string) {
    forall i :: 0 <= i < |s| ==> !IsLineTerminator(s[i])
  }

  /** `/^\[(.+?)\]\s*(.*)$/` from candidate closing bracket `k` on: the lazy
      timestamp group grows one character at a time, `.` never matches a line
      terminator, and the bracket chosen is the first one after which the rest
      of the line, past its leading white space, holds no line terminator. */
  function CloseAt(line: string, k: nat): (r: Option<nat>)
    requires 2 <= k <= |line|
    ensures r.Some? ==> k <= r.value < |line| && line[r.value] == ']'
    decreases |line| - k
  {
    if k == |line| || IsLineTerminator(line[k - 1]) then None
    else if line[k] == ']' && NoTerminator(TrimStart(line[k + 1..])) then Some(k)
    else CloseAt(line, k + 1)
  }

  /** `line` is `[ts]`, then white space, then `text`. */
  predicate HeaderShape(line: string, ts: string, text: string) {
    1 <= |ts| && |ts| + 2 <= |line| && line[0] == '[' && line[1..|ts| + 1] == ts && line[|ts| + 1] == ']' &&
    text == TrimStart(line[|ts| + 2..])
  }

  /** The text after the bracket at `j`, past its leading white space. */
  function TextAfter(line: string, j: nat): string
    requires j < |line|
  {
    TrimStart(line[j + 1..])
  }

  /** The timestamp and the text of a header line; `None` for any other line. */
  function Header(line: string): Option<(string, string)> {
    if |line| >= 2 && line[0] == '[' then
      match CloseAt(line, 2)
      case Some(j) => Some((line[1..j], TextAfter(line, j)))
      case None => None
    else None
  }

  predicate IsHeaderLine(line: string) {
    Header(line).Some?
  }

  function HeaderStamp(line: string): string {
    if IsHeaderLine(line) then Header(line).value.0 else ""
  }

  /** The first `]` at or after `k`. */
  function FirstClose(line: string, k: nat): Option<nat>
    requires k <= |line|
    decreases |line| - k
  {
    if k == |line| then None
    else if line[k] == ']' then Some(k)
    else FirstClose(line, k + 1)
  }

  /** A header is the timestamp in brackets, white space, then the text. */
  lemma HeaderShaped(line: string)
    requires IsHeaderLine(line)
    ensures HeaderShape(line, Header(line).value.0, Header(line).value.1)
  {
    assert |line| >= 2 && line[0] == '[';
    var c := CloseAt(line, 2);
    assert c.Some?;
    var j := c.value;
    assert Header(line) == Some((line[1..j], TextAfter(line, j)));
    ShapeAt(line, j);
  }

  lemma ShapeAt(line: string, j: nat)
    requires 2 <= j < |line| && line[0] == '[' && line[j] == ']'
    ensures HeaderShape(line, line[1..j], TextAfter(line, j))
  {
    assert |line[1..j]| + 1 == j;
  }

  /** On a line without line terminators the regular expression closes the
      timestamp at the first `]`. */
  lemma {:induction false} CloseAtPlain(line: string, k: nat)
    requires 2 <= k <= |line| && NoTerminator(line)
    ensures CloseAt(line, k) == FirstClose(line, k)
    decreases |line| - k
  {
    if k < |line| {
      assert !IsLineTerminator(line[k - 1]);
      TailHasNoTerminator(line, k + 1);
      CloseAtPlain(line, k + 1);
    }
  }

  lemma {:induction false} FirstCloseFound(line: string, k: nat)
    requires k <= |line|
    ensures FirstClose(line, k).Some? <==> exists j :: k <= j < |line| && line[j] == ']'
    ensures FirstClose(line, k).Some? ==> k <= FirstClose(line, k).value < |line|
    ensures forall i :: k <= i < |line| && FirstClose(line, k).Some? && i < FirstClose(line, k).value ==> line[i] != ']'
    decreases |line| - k
  {
    if k < |line| && line[k] != ']' {
      FirstCloseFound(line, k + 1);
    }
  }

  /** For a line without line terminators: it is a header exactly when it
      opens with `[` and has a `]` after at least one more character. */
  lemma HeaderOfPlainLine(line: string)
    requires NoTerminator(line)
    ensures IsHeaderLine(line) <==> |line| >= 2 && line[0] == '[' && exists j :: 2 <= j < |line| && line[j] == ']'
  {
    if |line| >= 2 && line[0] == '[' {
      CloseAtPlain(line, 2);
      FirstCloseFound(line, 2);
    }
  }

  /** On such a line the timestamp holds no `]` but possibly its first character. */
  lemma PlainStampUnbroken(line: string)
    requires NoTerminator(line) && IsHeaderLine(line)
    ensures forall i :: 1 <= i < |HeaderStamp(line)| ==> HeaderStamp(line)[i] != ']'
  {
    CloseAtPlain(line, 2);
    FirstCloseFound(line, 2);
    var j := FirstClose(line, 2).value;
    assert HeaderStamp(line) == line[1..j];
    forall i | 1 <= i < j - 1 ensures line[1..j][i] != ']' {
      assert line[1..j][i] == line[i + 1];
    }
  }

  lemma TailHasNoTerminator(line: string, k: nat)
    requires k <= |line| && NoTerminator(line)
    ensures NoTerminator(TrimStart(line[k..]))
  {
    SuffixNoTerminator(line, k);
    var rest := line[k..];
    SuffixNoTerminator(rest, |rest| - |TrimStart(rest)|);
  }

  lemma SuffixNoTerminator(s: string, m: nat)
    requires m <= |s| && NoTerminator(s)
    ensures NoTerminator(s[m..])
  {
    forall i | 0 <= i < |s| - m
      ensures !IsLineTerminator(s[m..][i])
    {
      assert s[m..][i] == s[m + i];
    }
  }

  /** Where the scan of one entity's lines stands: the entries already closed
      and the one still open. */
  datatype Scan = Scan(done: seq<LogEntry>, current: Option<LogEntry>)

  /** The closed entries followed by the open one. */
  function Flush(s: Scan): seq<LogEntry> {
    s.done + (if s.current.Some? then [s.current.value] else [])
  }

  /** What the loop body does with one line. */
  function StepLine(s: Scan, line: string, title: Value, id: Value): Scan {
    var header := Header(line);
    if header.Some? then
      Scan(Flush(s), Some(LogEntry(header.value.0, header.value.1, title, id)))
    else if s.current.Some? && !IsBlank(line) then
      Scan(s.done, Some(s.current.value.(text := s.current.value.text + "\n" + line)))
    else s
  }

  /** The scan after the given lines, from no entry at all. */
  function ScanLines(lines: seq<string>, title: Value, id: Value): Scan
    decreases |lines|
  {
    if lines == [] then Scan([], None)
    else StepLine(ScanLines(lines[..|lines| - 1], title, id), lines[|lines| - 1], title, id)
  }

  /** All entries of one entity; nothing when it has no comments. */
  function EntityLogs(e: Entity): seq<LogEntry> {
    if Truthy(Get(e, "Comments")) then
      Flush(ScanLines(Split(ToStr(Get(e, "Comments")), '\n'), Get(e, "title"), Get(e, "Id")))
    else []
  }

  /** The entries of every entity, entity after entity. */
  function AllLogs(entities: seq<Entity>): seq<LogEntry>
    decreases |entities|
  {
    if entities == [] then []
    else AllLogs(entities[..|entities| - 1]) + EntityLogs(entities[|entities| - 1])
  }

  function StampOf(l: LogEntry): string {
    l.timestamp
  }

  /** One entry per header line, in the order of the header lines, each with
      that header's timestamp; every entry carries the entity's title and id. */
  lemma {:induction false} EntriesFollowHeaders(lines: seq<string>, title: Value, id: Value)
    ensures MapSeq(Flush(ScanLines(lines, title, id)), StampOf) == MapSeq(Filter(lines, IsHeaderLine), HeaderStamp)
    ensures |Flush(ScanLines(lines, title, id))| == Count(lines, IsHeaderLine)
    ensures AllOwned(ScanLines(lines, title, id), title, id)
    decreases |lines|
  {
    if lines != [] {
      var init, last := lines[..|lines| - 1], lines[|lines| - 1];
      assert lines == init + [last];
      EntriesFollowHeaders(init, title, id);
      FilterSnoc(init, last, IsHeaderLine);
      StepKeepsStamps(ScanLines(init, title, id), last, title, id);
      StepKeepsOwner(ScanLines(init, title, id), last, title, id);
      MapAppend(Filter(init, IsHeaderLine), if IsHeaderLine(last) then [last] else [], HeaderStamp);
    }
  }

  /** One line adds an entry exactly when it is a header. */
  lemma {:induction false} StepKeepsStamps(s: Scan, line: string, title: Value, id: Value)
    ensures MapSeq(Flush(StepLine(s, line, title, id)), StampOf) ==
            MapSeq(Flush(s), StampOf) + MapSeq(if IsHeaderLine(line) then [line] else [], HeaderStamp)
  {
    var before, after := Flush(s), Flush(StepLine(s, line, title, id));
    if IsHeaderLine(line) {
      assert after == before + [LogEntry(HeaderStamp(line), Header(line).value.1, title, id)];
      MapAppend(before, [LogEntry(HeaderStamp(line), Header(line).value.1, title, id)], StampOf);
    } else {
      assert |after| == |before|;
      assert forall k :: 0 <= k < |after| ==> after[k].timestamp == before[k].timestamp;
    }
  }

  /** Every entry a line step leaves carries the entity's title and id. */
  lemma {:induction false} StepKeepsOwner(s: Scan, line: string, title: Value, id: Value)
    requires AllOwned(s, title, id)
    ensures AllOwned(StepLine(s, line, title, id), title, id)
  {
    if IsHeaderLine(line) {
      var done := s.done + (if s.current.Some? then [s.current.value] else []);
      assert forall k :: 0 <= k < |done| ==> Owned(done[k], title, id);
    }
  }

  predicate Owned(l: LogEntry, title: Value, id: Value) {
    l.entityTitle == title && l.entityId == id
  }

  predicate AllOwned(s: Scan, title: Value, id: Value) {
    (forall k :: 0 <= k < |s.done| ==> Owned(s.done[k], title, id)) &&
    (s.current.Some? ==> Owned(s.current.value, title, id))
  }

  lemma MapAppend<T, U>(a: seq<T>, b: seq<T>, f: T -> U)
    ensures MapSeq(a + b, f) == MapSeq(a, f) + MapSeq(b, f)
  {
    assert forall i :: 0 <= i < |a + b| ==> MapSeq(a + b, f)[i] == (MapSeq(a, f) + MapSeq(b, f))[i];
  }

  lemma ScanLinesSnoc(lines: seq<string>, i: nat, title: Value, id: Value)
    requires i < |lines|
    ensures ScanLines(lines[..i + 1], title, id) == StepLine(ScanLines(lines[..i], title, id), lines[i], title, id)
  {
    assert lines[..i + 1][..i] == lines[..i];
  }

  /** The text the lines after a header add to its entry: each non-blank line
      on a line of its own. */
  function Continuation(lines: seq<string>): string
    decreases |lines|
  {
    if lines == [] then ""
    else Continuation(lines[..|lines| - 1]) + (if IsBlank(lines[|lines| - 1]) then "" else "\n" + lines[|lines| - 1])
  }

  /** Lines before the first header are dropped. */
  lemma {:induction false} OrphanLinesDropped(lines: seq<string>, title: Value, id: Value)
    requires forall k :: 0 <= k < |lines| ==> !IsHeaderLine(lines[k])
    ensures ScanLines(lines, title, id) == Scan([], None)
    decreases |lines|
  {
    if lines != [] {
      OrphanLinesDropped(lines[..|lines| - 1], title, id);
    }
  }

  /** A line that is not a header extends the open entry, unless it is blank. */
  lemma StepContinues(stamp: string, text: string, line: string, title: Value, id: Value)
    requires !IsHeaderLine(line)
    ensures StepLine(Scan([], Some(LogEntry(stamp, text, title, id))), line, title, id) ==
      Scan([], Some(LogEntry(stamp, text + (if IsBlank(line) then "" else "\n" + line), title, id)))
  {
    assert text + "" == text;
    Concat3(text, "\n", line);
  }

  /** A header followed by lines that are not headers makes one open entry:
      the header's timestamp and text, then every non-blank line after it,
      each preceded by a line break; blank lines are dropped. */
  lemma {:induction false} HeaderThenLines(h: string, rest: seq<string>, title: Value, id: Value)
    requires IsHeaderLine(h)
    requires forall k :: 0 <= k < |rest| ==> !IsHeaderLine(rest[k])
    ensures ScanLines([h] + rest, title, id) ==
      Scan([], Some(LogEntry(HeaderStamp(h), Header(h).value.1 + Continuation(rest), title, id)))
    decreases |rest|
  {
    if rest == [] {
      HeaderAlone(h, title, id);
    } else {
      var init := rest[..|rest| - 1];
      HeaderThenLines(h, init, title, id);
      HeaderThenOneMore(h, rest, title, id);
    }
  }

  lemma HeaderAlone(h: string, title: Value, id: Value)
    requires IsHeaderLine(h)
    ensures ScanLines([h], title, id) == Scan([], Some(LogEntry(HeaderStamp(h), Header(h).value.1 + Continuation([]), title, id)))
  {
    assert [h][..0] == [];
    assert Header(h).value.1 + "" == Header(h).value.1;
  }

  lemma HeaderThenOneMore(h: string, rest: seq<string>, title: Value, id: Value)
    requires IsHeaderLine(h) && rest != [] && !IsHeaderLine(rest[|rest| - 1])
    requires ScanLines([h] + rest[..|rest| - 1], title, id) ==
      Scan([], Some(LogEntry(HeaderStamp(h), Header(h).value.1 + Continuation(rest[..|rest| - 1]), title, id)))
    ensures ScanLines([h] + rest, title, id) ==
      Scan([], Some(LogEntry(HeaderStamp(h), Header(h).value.1 + Continuation(rest), title, id)))
  {
    var init, last := rest[..|rest| - 1], rest[|rest| - 1];
    var text0 := Header(h).value.1;
    SplitLast(h, rest);
    ContinueScan([h] + init, last, HeaderStamp(h), text0 + Continuation(init), title, id);
    var extra := if IsBlank(last) then "" else "\n" + last;
    assert Continuation(rest) == Continuation(init) + extra;
    Concat3(text0, Continuation(init), extra);
  }

  /** A line that is not a header, after lines that leave one open entry. */
  lemma ContinueScan(lines: seq<string>, last: string, stamp: string, text: string, title: Value, id: Value)
    requires !IsHeaderLine(last)
    requires ScanLines(lines, title, id) == Scan([], Some(LogEntry(stamp, text, title, id)))
    ensures ScanLines(lines + [last], title, id) ==
      Scan([], Some(LogEntry(stamp, text + (if IsBlank(last) then "" else "\n" + last), title, id)))
  {
    assert (lines + [last])[..|lines|] == lines;
    StepContinues(stamp, text, last, title, id);
  }

  lemma SplitLast(h: string, rest: seq<string>)
    requires rest != []
    ensures [h] + rest == ([h] + rest[..|rest| - 1]) + [rest[|rest| - 1]]
  {
    assert rest == rest[..|rest| - 1] + [rest[|rest| - 1]];
  }

  lemma Concat3(a: string, b: string, c: string)
    ensures (a + b) + c == a + (b + c)
  {
  }

  /** An entity without comments contributes no entry. */
  lemma NoCommentsNoEntries(entities: seq<Entity>, e: Entity)
    requires !Truthy(Get(e, "Comments"))
    ensures AllLogs(entities + [e]) == AllLogs(entities)
  {
    assert (entities + [e])[..|entities|] == entities;
  }

  /** The inner `forEach` over the lines of one entity's comments. */
  method ScanEntity(e: Entity) returns (logs: seq<LogEntry>)
    ensures logs == EntityLogs(e)
  {
    logs := [];
    if Truthy(Get(e, "Comments")) {
      var lines := Split(ToStr(Get(e, "Comments")), '\n');
      var title, id := Get(e, "title"), Get(e, "Id");
      var current: Option<LogEntry> := None;
      var i := 0;
      while i < |lines|
        invariant 0 <= i <= |lines|
        invariant Scan(logs, current) == ScanLines(lines[..i], title, id)
      {
        ScanLinesSnoc(lines, i, title, id);
        var line := lines[i];
        var header := Header(line);
        if header.Some? {
          if current.Some? {
            logs := logs + [current.value];
          }
          current := Some(LogEntry(header.value.0, header.value.1, title, id));
        } else if current.Some? && !IsBlank(line) {
          current := Some(current.value.(text := current.value.text + "\n" + line));
        }
        i := i + 1;
      }
      assert lines[..i] == lines;
      if current.Some? {
        logs := logs + [current.value];
      }
    }
  }

  /** The outer `forEach` over the entities. */
  method CollectLogs(entities: seq<Entity>) returns (all: seq<LogEntry>)
    ensures all == AllLogs(entities)
  {
    all := [];
    var n := 0;
    while n < |entities|
      invariant 0 <= n <= |entities|
      invariant all == AllLogs(entities[..n])
    {
      assert entities[..n + 1][..n] == entities[..n];
      var logs := ScanEntity(entities[n]);
      all := all + logs;
      n := n + 1;
    }
    assert entities[..n] == entities;
  }

  // ----- dates -----

  /** `Number(s)` for the pieces of a date: a run of digits (the empty text is 0);
      `None` stands for NaN. */
  function NumberOf(s: string): Option<int> {
    if forall i :: 0 <= i < |s| ==> IsAsciiDigit(s[i]) then Some(DigitsValue(s)) else None
  }

  /** The piece at `i`, `undefined` (NaN once converted) past the end. */
  function Piece(parts: seq<string>, i: nat): Option<int> {
    if i < |parts| then NumberOf(parts[i]) else None
  }

  /** `new Date(year, ...)` reads a year from 0 to 99 as 1900 onwards. */
  function FullYear(y: int): int {
    if 0 <= y <= 99 then 1900 + y else y
  }

  /** The moment of `new Date(0)`. */
  const Epoch: seq<int> := [1970, 1, 1, 0, 0]

  /** `parseDate`: `"DD/MM/YYYY HH:mm"` as year, month, day, hour, minute. A
      text without a space has no time part, which throws; the fallback is the
      epoch. */
  function ParseDate(s: string): (r: seq<int>)
    ensures |r| == 5
  {
    var parts := Split(s, ' ');
    if |parts| < 2 then Epoch
    else
      var date, time := Split(parts[0], '/'), Split(parts[1], ':');
      var day, month, year, hour, minute := Piece(date, 0), Piece(date, 1), Piece(date, 2), Piece(time, 0), Piece(time, 1);
      if day.Some? && month.Some? && year.Some? && hour.Some? && minute.Some? then
        [FullYear(year.value), month.value, day.value, hour.value, minute.value]
      else Epoch
  }

  /** The text `DD/MM/YYYY HH:mm`. */
  function StampText(day: string, month: string, year: string, hour: string, minute: string): string {
    (day + "/" + month + "/" + year) + " " + (hour + ":" + minute)
  }

  /** A well-formed timestamp gives its own fields. */
  lemma ParseWellFormed(day: string, month: string, year: string, hour: string, minute: string)
    requires |day| == 2 && |month| == 2 && |year| == 4 && |hour| == 2 && |minute| == 2
    requires AllDigits(day) && AllDigits(month) && AllDigits(year) && AllDigits(hour) && AllDigits(minute)
    ensures ParseDate(StampText(day, month, year, hour, minute)) ==
      [FullYear(DigitsValue(year)), DigitsValue(month), DigitsValue(day), DigitsValue(hour), DigitsValue(minute)]
  {
    DigitsHaveNo(day, '/'); DigitsHaveNo(month, '/'); DigitsHaveNo(year, '/');
    DigitsHaveNo(hour, ':'); DigitsHaveNo(minute, ':');
    DigitsHaveNo(day, ' '); DigitsHaveNo(month, ' '); DigitsHaveNo(year, ' ');
    DigitsHaveNo(hour, ' '); DigitsHaveNo(minute, ' ');
    var date := day + "/" + month + "/" + year;
    var time := hour + ":" + minute;
    SplitThree(day, month, year, '/');
    SplitTwo(hour, minute, ':');
    SplitTwo(date, time, ' ');
  }

  predicate AllDigits(s: string) {
    forall i :: 0 <= i < |s| ==> IsAsciiDigit(s[i])
  }

  lemma DigitsHaveNo(s: string, c: char)
    requires AllDigits(s) && !IsAsciiDigit(c)
    ensures c !in s
  {
  }

  lemma SplitTwo(a: string, b: string, sep: char)
    requires sep !in a && sep !in b
    ensures Split(a + [sep] + b, sep) == [a, b]
  {
    SplitJoin([a, b], sep);
    assert [a, b][1..] == [b];
  }

  lemma SplitThree(a: string, b: string, c: string, sep: char)
    requires sep !in a && sep !in b && sep !in c
    ensures Split(a + [sep] + b + [sep] + c, sep) == [a, b, c]
  {
    SplitPrefix(a, b + [sep] + c, sep);
    SplitTwo(b, c, sep);
    assert a + [sep] + b + [sep] + c == a + [sep] + (b + [sep] + c);
  }

  /** A timestamp without a time part falls back to the epoch. */
  lemma NoTimeIsEpoch(s: string)
    requires ' ' !in s
    ensures ParseDate(s) == Epoch
  {
    SplitFree(s, ' ');
  }

  function Negate(a: seq<int>): (r: seq<int>)
    ensures |r| == |a|
    ensures forall i :: 0 <= i < |a| ==> r[i] == -a[i]
  {
    if a == [] then [] else [-a[0]] + Negate(a[1..])
  }

  /** Negating both keys reverses their order. */
  lemma {:induction false} NegateReverses(a: seq<int>, b: seq<int>)
    requires |a| == |b|
    ensures LexLeq(Negate(a), Negate(b)) <==> LexLeq(b, a)
    decreases |a|
  {
    if a != [] {
      NegateReverses(a[1..], b[1..]);
      assert Negate(a)[1..] == Negate(a[1..]);
      assert Negate(b)[1..] == Negate(b[1..]);
    }
  }

  /** `(a, b) => parseDate(b) - parseDate(a)`: the later date first. */
  function NewestFirst(l: LogEntry): seq<int> {
    Negate(ParseDate(l.timestamp))
  }

  /** `loadHistory`: all entries, newest first. */
  method LoadHistory(entities: seq<Entity>) returns (logs: seq<LogEntry>)
    ensures logs == SortBy(AllLogs(entities), NewestFirst)
  {
    var all := CollectLogs(entities);
    logs := SortBy(all, NewestFirst);
  }

  /** The history holds every entry once, and no entry is newer than one
      shown before it. */
  lemma HistoryOrder(entities: seq<Entity>)
    ensures multiset(SortBy(AllLogs(entities), NewestFirst)) == multiset(AllLogs(entities))
    ensures forall i, j :: 0 <= i < j < |SortBy(AllLogs(entities), NewestFirst)| ==>
      LexLeq(ParseDate(SortBy(AllLogs(entities), NewestFirst)[j].timestamp),
             ParseDate(SortBy(AllLogs(entities), NewestFirst)[i].timestamp))
  {
    var sorted := SortBy(AllLogs(entities), NewestFirst);
    SortBySorted(AllLogs(entities), NewestFirst);
    forall i, j | 0 <= i < j < |sorted|
      ensures LexLeq(ParseDate(sorted[j].timestamp), ParseDate(sorted[i].timestamp))
    {
      NegateReverses(ParseDate(sorted[i].timestamp), ParseDate(sorted[j].timestamp));
    }
  }
}
