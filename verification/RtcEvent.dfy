/** Appending one event line to a log exactly once, however often the attempt is cut and retried
    (rtc_correction_recover_event). */
module RtcEvent {
  import opened Wrappers

  const LINE_MAX: nat := 512

  /** How the JSON reader sees a line: the event itself, another record, or not acceptable. */
  datatype Class = Match | Other | Bad

  /** What a scan of the file finds: `keep` is where the complete lines end. */
  datatype Scanned = Refused | Clean(found: bool) | Torn(found: bool, keep: nat)

  // ----- The scan -----

  /** fgets: the end of the next chunk, at most `LINE_MAX - 1` bytes and through the first line feed. */
  function ChunkEnd(s: string, i: nat, room: nat): (e: nat)
    requires i <= |s|
    ensures i <= e <= |s| && e <= i + room
    decreases room
  {
    if i == |s| || room == 0 then i else if s[i] == '\n' then i + 1 else ChunkEnd(s, i + 1, room - 1)
  }

  /** strlen */
  function CLength(s: string): (n: nat)
    ensures n <= |s| && (n < |s| ==> s[n] == '\0') && forall k :: 0 <= k < n ==> s[k] != '\0'
  {
    if s == "" || s[0] == '\0' then 0 else 1 + CLength(s[1..])
  }

  function Scan(s: string, cls: string -> Class, from: nat, found: bool): Scanned
    requires from <= |s|
    decreases |s| - from
  {
    var e := ChunkEnd(s, from, LINE_MAX - 1);
    if e == from then Clean(found)
    else
      var chunk := s[from..e];
      var n := CLength(chunk);
      if n == 0 then Refused
      else if chunk[n - 1] != '\n' then
        if e == |s| && |chunk| < LINE_MAX - 1 && chunk[|chunk| - 1] != '\n' then Torn(found, from) else Refused
      else if cls(chunk) == Bad then Refused
      else Scan(s, cls, e, found || cls(chunk) == Match)
  }

  // ----- Files that are complete lines and a tail -----

  /** One complete line that the scan accepts. */
  predicate GoodLine(line: string, cls: string -> Class) {
    && 0 < |line| < LINE_MAX && line[|line| - 1] == '\n' && cls(line) != Bad
    && forall k :: 0 <= k < |line| - 1 ==> line[k] != '\n' && line[k] != '\0'
  }

  predicate GoodLines(lines: seq<string>, cls: string -> Class) {
    forall i :: 0 <= i < |lines| ==> GoodLine(lines[i], cls)
  }

  /** What can follow the complete lines and be cut off: short, no line feed, and something to see. */
  predicate CutTail(tail: string) {
    |tail| < LINE_MAX - 1 && (tail != "" ==> tail[0] != '\0') && forall k :: 0 <= k < |tail| ==> tail[k] != '\n'
  }

  function Text(lines: seq<string>): string {
    if lines == [] then "" else lines[0] + Text(lines[1..])
  }

  predicate HasMatch(lines: seq<string>, cls: string -> Class) {
    exists i :: 0 <= i < |lines| && cls(lines[i]) == Match
  }

  lemma {:induction false} ChunkOfLine(s: string, i: nat, line: string, room: nat)
    requires i + |line| <= |s| && s[i..i + |line|] == line && 0 < |line| <= room && line[|line| - 1] == '\n'
    requires forall k :: 0 <= k < |line| - 1 ==> line[k] != '\n'
    ensures ChunkEnd(s, i, room) == i + |line|
    decreases |line|
  {
    assert s[i] == line[0];
    if |line| > 1 {
      assert s[i + 1..i + |line|] == line[1..];
      ChunkOfLine(s, i + 1, line[1..], room - 1);
    }
  }

  lemma {:induction false} ChunkOfTail(s: string, i: nat, room: nat)
    requires i <= |s| <= i + room && forall k :: i <= k < |s| ==> s[k] != '\n'
    ensures ChunkEnd(s, i, room) == |s|
    decreases room
  {
    if i < |s| {
      ChunkOfTail(s, i + 1, room - 1);
    }
  }

  lemma {:induction false} WholeLength(s: string)
    requires forall k :: 0 <= k < |s| ==> s[k] != '\0'
    ensures CLength(s) == |s|
  {
  }

  /** The scan goes past a complete line. */
  lemma ScanStep(s: string, cls: string -> Class, from: nat, found: bool, line: string)
    requires from + |line| <= |s| && s[from..from + |line|] == line && GoodLine(line, cls)
    ensures Scan(s, cls, from, found) == Scan(s, cls, from + |line|, found || cls(line) == Match)
  {
    ChunkOfLine(s, from, line, LINE_MAX - 1);
    WholeLength(line);
  }

  lemma ScanTail(s: string, cls: string -> Class, from: nat, found: bool, tail: string)
    requires from <= |s| && s[from..] == tail && CutTail(tail)
    ensures Scan(s, cls, from, found) == if tail == "" then Clean(found) else Torn(found, from)
  {
    forall k | from <= k < |s| ensures s[k] != '\n' {
      assert s[k] == tail[k - from];
    }
    ChunkOfTail(s, from, LINE_MAX - 1);
    assert s[from..|s|] == tail;
    TailLength(tail);
  }

  /** The scan of complete lines with a tail finds the match among the lines and where the tail starts. */
  lemma {:induction false} ScanLines(s: string, cls: string -> Class, from: nat, found: bool, lines: seq<string>, tail: string)
    requires from <= |s| && s[from..] == Text(lines) + tail && GoodLines(lines, cls) && CutTail(tail)
    ensures Scan(s, cls, from, found) ==
      (var f := found || HasMatch(lines, cls); if tail == "" then Clean(f) else Torn(f, from + |Text(lines)|))
    decreases |lines|
  {
    hide Scan, CutTail, GoodLine;
    if lines == [] {
      assert s[from..] == tail;
      ScanTail(s, cls, from, found, tail);
    } else {
      hide HasMatch;
      var line, rest := lines[0], lines[1..];
      assert s[from..] == line + (Text(rest) + tail);
      assert s[from..from + |line|] == line;
      assert s[from + |line|..] == Text(rest) + tail;
      ScanStep(s, cls, from, found, line);
      ScanLines(s, cls, from + |line|, found || cls(line) == Match, rest, tail);
      MatchSplit(lines, cls);
    }
  }

  lemma TailLength(tail: string)
    requires CutTail(tail)
    ensures tail != "" ==> 0 < CLength(tail) && tail[CLength(tail) - 1] != '\n' && tail[|tail| - 1] != '\n'
  {
  }

  lemma MatchSplit(lines: seq<string>, cls: string -> Class)
    requires lines != []
    ensures HasMatch(lines, cls) <==> cls(lines[0]) == Match || HasMatch(lines[1..], cls)
  {
    if i :| 1 <= i < |lines| && cls(lines[i]) == Match {
      assert lines[1..][i - 1] == lines[i];
    }
    if i :| 0 <= i < |lines[1..]| && cls(lines[1..][i]) == Match {
      assert lines[i + 1] == lines[1..][i];
    }
  }

  // ----- One attempt -----

  /** Which of the attempt's operations succeed, and how many bytes of the line get written. */
  datatype Faults = Faults(opens: bool, truncates: bool, syncsTail: bool, wrote: nat, syncs: bool, closes: bool)

  /** The file as it reads back now, and as it is durable; a missing file reads as empty. */
  datatype Disk = Disk(view: string, durable: string)

  datatype Attempted = Attempted(disk: Disk, cleared: bool)

  /** What one attempt leaves behind, and whether it asks for the pending mark to be cleared. */
  function Attempt(d: Disk, cls: string -> Class, line: string, f: Faults): Attempted {
    if !f.opens then Attempted(d, false)
    else
      var r := Scan(d.view, cls, 0, false);
      if r.Refused? then Attempted(d, false)
      else if r.Clean? then Complete(d, r.found, line, f)
      else if !f.truncates || r.keep > |d.view| then Attempted(d, false)
      else
        var v := d.view[..r.keep];
        if !f.syncsTail then Attempted(Disk(v, d.durable), false) else Complete(Disk(v, v), r.found, line, f)
  }

  /** Append the line if it is missing, then close and clear. */
  function Complete(d: Disk, found: bool, line: string, f: Faults): Attempted {
    if found then Attempted(d, f.closes)
    else if |line| >= LINE_MAX then Attempted(d, false)
    else if f.wrote < |line| then Attempted(Disk(d.view + line[..f.wrote], d.durable), false)
    else
      var v := d.view + line;
      if !f.syncs then Attempted(Disk(v, d.durable), false) else Attempted(Disk(v, v), f.closes)
  }

  class Log {
    var disk: Disk

    constructor (disk: Disk)
      ensures this.disk == disk
    {
      this.disk := disk;
    }

    /** The read loop. */
    method ReadLines(cls: string -> Class) returns (r: Scanned)
      ensures r == Scan(disk.view, cls, 0, false)
    {
      var s, from, found := disk.view, 0, false;
      while from < |s|
        invariant from <= |s| && Scan(s, cls, from, found) == Scan(s, cls, 0, false)
        decreases |s| - from
      {
        var e := ChunkEnd(s, from, LINE_MAX - 1);
        SomeChunk(s, from, LINE_MAX - 1);
        var chunk := s[from..e];
        var n := CLength(chunk);
        if n == 0 {
          return Refused;
        }
        if chunk[n - 1] != '\n' {
          return if e == |s| && |chunk| < LINE_MAX - 1 && chunk[|chunk| - 1] != '\n' then Torn(found, from) else Refused;
        }
        if cls(chunk) == Bad {
          return Refused;
        }
        found := found || cls(chunk) == Match;
        from := e;
      }
      r := Clean(found);
    }

    /** rtc_correction_recover_event. */
    method Recover(cls: string -> Class, line: string, f: Faults) returns (cleared: bool)
      modifies this
      ensures Attempted(disk, cleared) == Attempt(old(disk), cls, line, f)
    {
      if !f.opens {
        return false;
      }
      var r := ReadLines(cls);
      var found;
      match r {
        case Refused => return false;
        case Clean(b) => found := b;
        case Torn(b, keep) =>
          if !f.truncates || keep > |disk.view| {
            return false;
          }
          disk := disk.(view := disk.view[..keep]);
          if !f.syncsTail {
            return false;
          }
          disk := disk.(durable := disk.view);
          found := b;
      }
      if !found {
        if |line| >= LINE_MAX {
          return false;
        }
        disk := disk.(view := disk.view + line[..if f.wrote < |line| then f.wrote else |line|]);
        if f.wrote < |line| || !f.syncs {
          return false;
        }
        disk := disk.(durable := disk.view);
      }
      cleared := f.closes;
    }
  }

  lemma SomeChunk(s: string, i: nat, room: nat)
    requires i < |s| && room > 0
    ensures ChunkEnd(s, i, room) > i
  {
  }

  // ----- Every run of attempts and power cuts -----

  /** A cut during an attempt leaves what an attempt failing there leaves, and then loses unsynced bytes. */
  datatype Event = Try(faults: Faults) | Cut(remains: string)

  function Matches(lines: seq<string>, cls: string -> Class): nat {
    if lines == [] then 0 else (if cls(lines[0]) == Match then 1 else 0) + Matches(lines[1..], cls)
  }

  /** The event line: a matching line short enough to be read back. */
  predicate EventLine(line: string, cls: string -> Class) {
    GoodLine(line, cls) && |line| > 1 && cls(line) == Match
  }

  /** The complete lines the log started with, and then at most a torn tail or the event. */
  ghost predicate Shape(s: string, lines: seq<string>, cls: string -> Class, line: string) {
    || (exists tail :: CutTail(tail) && s == Text(lines) + tail)
    || (!HasMatch(lines, cls) && s == Text(lines) + line)
  }

  ghost predicate Shaped(d: Disk, lines: seq<string>, cls: string -> Class, line: string) {
    Shape(d.view, lines, cls, line) && Shape(d.durable, lines, cls, line)
  }

  /** What a power cut can leave: the durable bytes, or part of the newer ones past the complete lines. */
  predicate Remains(d: Disk, lines: seq<string>, c: string) {
    c == d.durable || (|Text(lines)| <= |c| && c <= d.view)
  }

  /** The log holds the complete lines it started with and the event exactly once. */
  predicate Recorded(s: string, lines: seq<string>, cls: string -> Class, line: string) {
    if HasMatch(lines, cls) then s == Text(lines) else s == Text(lines) + line
  }

  lemma {:induction false} TextSnoc(lines: seq<string>, line: string)
    ensures Text(lines + [line]) == Text(lines) + line
  {
    if lines == [] {
      assert lines + [line] == [line] && [line][1..] == [];
    } else {
      TextSnoc(lines[1..], line);
      assert (lines + [line])[1..] == lines[1..] + [line];
    }
  }

  lemma MatchLast(lines: seq<string>, cls: string -> Class, line: string)
    requires cls(line) == Match
    ensures HasMatch(lines + [line], cls)
  {
    assert (lines + [line])[|lines|] == line;
  }

  predicate Sees(r: Scanned, s: string, lines: seq<string>, cls: string -> Class, line: string) {
    if r.Clean? then
      if r.found then Recorded(s, lines, cls, line) else s == Text(lines) && !HasMatch(lines, cls)
    else
      r.Torn? && r.keep == |Text(lines)| <= |s| && s[..r.keep] == Text(lines) && r.found == HasMatch(lines, cls)
  }

  /** What the scan sees of a log of the right shape. */
  lemma ScanShape(s: string, lines: seq<string>, cls: string -> Class, line: string)
    requires GoodLines(lines, cls) && EventLine(line, cls) && Shape(s, lines, cls, line)
    ensures Sees(Scan(s, cls, 0, false), s, lines, cls, line)
  {
    hide HasMatch;
    assert s[0..] == s;
    if tail :| CutTail(tail) && s == Text(lines) + tail {
      ScanLines(s, cls, 0, false, lines, tail);
      assert s[..|Text(lines)|] == Text(lines);
      assert tail == "" ==> s == Text(lines);
    } else {
      TextSnoc(lines, line);
      assert s == Text(lines + [line]) + "";
      MatchLast(lines, cls, line);
      ScanLines(s, cls, 0, false, lines + [line], "");
    }
  }

  lemma PrefixOfLine(lines: seq<string>, cls: string -> Class, line: string, n: nat)
    requires EventLine(line, cls) && n <= |line| && !HasMatch(lines, cls)
    ensures Shape(Text(lines) + line[..n], lines, cls, line)
  {
    if n == |line| {
      assert line[..n] == line;
    } else {
      assert CutTail(line[..n]);
    }
  }

  lemma NoTail(lines: seq<string>, cls: string -> Class, line: string)
    ensures Shape(Text(lines), lines, cls, line)
  {
    assert CutTail("") && Text(lines) == Text(lines) + "";
  }

  /** An attempt keeps the shape; it clears the pending mark only when the event is recorded once in
      what the file reads back, and durably unless it found the event and wrote nothing. */
  lemma AttemptKeeps(d: Disk, lines: seq<string>, cls: string -> Class, line: string, f: Faults)
    requires GoodLines(lines, cls) && EventLine(line, cls) && Shaped(d, lines, cls, line)
    ensures var a := Attempt(d, cls, line, f);
      && Shaped(a.disk, lines, cls, line)
      && (a.cleared ==> Recorded(a.disk.view, lines, cls, line))
      && (a.cleared ==> (a.disk.durable == a.disk.view <==> d.durable == d.view || Scan(d.view, cls, 0, false) != Clean(true)))
  {
    hide HasMatch, Scan, Text, CutTail, EventLine, GoodLine;
    ScanShape(d.view, lines, cls, line);
    NoTail(lines, cls, line);
    var n := if f.wrote < |line| then f.wrote else |line|;
    if !HasMatch(lines, cls) {
      PrefixOfLine(lines, cls, line, n);
      assert line[..|line|] == line;
    }
  }

  /** A power cut keeps the shape. */
  lemma CutKeeps(d: Disk, lines: seq<string>, cls: string -> Class, line: string, c: string)
    requires EventLine(line, cls) && Shaped(d, lines, cls, line) && Remains(d, lines, c)
    ensures Shape(c, lines, cls, line)
  {
    hide HasMatch, Text;
    if c != d.durable {
      var t := Text(lines);
      if tail :| CutTail(tail) && d.view == t + tail {
        assert c == t + tail[..|c| - |t|];
        assert CutTail(tail[..|c| - |t|]);
      } else {
        assert c == t + line[..|c| - |t|];
        PrefixOfLine(lines, cls, line, |c| - |t|);
      }
    }
  }

  /** The state after the first `n` events, if the cuts leave what cuts can leave. */
  function After(d: Disk, lines: seq<string>, cls: string -> Class, line: string, events: seq<Event>, n: nat): Option<Disk>
    requires n <= |events|
  {
    if n == 0 then Some(d)
    else
      var before := After(d, lines, cls, line, events, n - 1);
      if before.None? then None
      else
        match events[n - 1]
        case Try(f) => Some(Attempt(before.value, cls, line, f).disk)
        case Cut(c) => if Remains(before.value, lines, c) then Some(Disk(c, c)) else None
  }

  lemma {:induction false} RunKeeps(d: Disk, lines: seq<string>, cls: string -> Class, line: string, events: seq<Event>, n: nat)
    requires GoodLines(lines, cls) && EventLine(line, cls) && Shaped(d, lines, cls, line) && n <= |events|
    ensures After(d, lines, cls, line, events, n).Some? ==> Shaped(After(d, lines, cls, line, events, n).value, lines, cls, line)
  {
    hide Shape, Attempt, Remains, EventLine, GoodLines;
    if n > 0 {
      RunKeeps(d, lines, cls, line, events, n - 1);
      var before := After(d, lines, cls, line, events, n - 1);
      if before.Some? {
        match events[n - 1] {
          case Try(f) => AttemptKeeps(before.value, lines, cls, line, f);
          case Cut(c) =>
            if Remains(before.value, lines, c) {
              CutKeeps(before.value, lines, cls, line, c);
            }
        }
      }
    }
  }

  /** In every run, when the pending mark is cleared the file reads back the lines it started with and
      the event exactly once. */
  lemma ClearedOnce(d: Disk, lines: seq<string>, cls: string -> Class, line: string, events: seq<Event>, n: nat, f: Faults)
    requires GoodLines(lines, cls) && EventLine(line, cls) && Shaped(d, lines, cls, line) && n <= |events|
    requires Matches(lines, cls) <= 1
    requires var s := After(d, lines, cls, line, events, n); s.Some? && Attempt(s.value, cls, line, f).cleared
    ensures var a := Attempt(After(d, lines, cls, line, events, n).value, cls, line, f).disk;
      exists all: seq<string> :: a.view == Text(all) && lines <= all && Matches(all, cls) == 1
  {
    hide Attempt, Shape, EventLine, GoodLines, Scan;
    RunKeeps(d, lines, cls, line, events, n);
    AttemptKeeps(After(d, lines, cls, line, events, n).value, lines, cls, line, f);
    OneMatch(lines, cls, line);
    TextSnoc(lines, line);
    var all := if HasMatch(lines, cls) then lines else lines + [line];
    assert lines <= all;
  }

  /** Retrying converges: an attempt in which nothing fails clears the mark. */
  lemma CalmAttempt(d: Disk, lines: seq<string>, cls: string -> Class, line: string, f: Faults)
    requires GoodLines(lines, cls) && EventLine(line, cls) && Shaped(d, lines, cls, line)
    requires f.opens && f.truncates && f.syncsTail && f.wrote >= |line| && f.syncs && f.closes
    ensures Attempt(d, cls, line, f).cleared
  {
    hide HasMatch, Scan, Text, CutTail;
    ScanShape(d.view, lines, cls, line);
  }

  // ----- Logs that are refused -----

  /** The text is acceptable complete lines and a tail that can be cut off. */
  ghost predicate Acceptable(s: string, cls: string -> Class) {
    exists lines, tail :: GoodLines(lines, cls) && CutTail(tail) && s == Text(lines) + tail
  }

  lemma ChunkEnds(s: string, i: nat, room: nat)
    requires i <= |s|
    ensures var e := ChunkEnd(s, i, room);
      && (forall k :: i <= k < e - 1 ==> s[k] != '\n') && (e < |s| && e < i + room ==> i < e && s[e - 1] == '\n')
    decreases room
  {
    if i < |s| && room > 0 && s[i] != '\n' {
      ChunkEnds(s, i + 1, room - 1);
    }
  }

  /** A chunk that the scan goes past is an acceptable line, and one that it cuts off is such a tail. */
  lemma ChunkIs(s: string, cls: string -> Class, from: nat, found: bool)
    requires from < |s| && Scan(s, cls, from, found) != Refused
    ensures var chunk := s[from..ChunkEnd(s, from, LINE_MAX - 1)];
      if chunk != "" && chunk[|chunk| - 1] == '\n' then GoodLine(chunk, cls) else CutTail(chunk) && from + |chunk| == |s|
  {
    ChunkEnds(s, from, LINE_MAX - 1);
    SomeChunk(s, from, LINE_MAX - 1);
  }

  lemma {:induction false} AcceptedLines(s: string, cls: string -> Class, from: nat, found: bool) returns (lines: seq<string>, tail: string)
    requires from <= |s| && Scan(s, cls, from, found) != Refused
    ensures GoodLines(lines, cls) && CutTail(tail) && s[from..] == Text(lines) + tail
    decreases |s| - from
  {
    hide GoodLine, CLength, CutTail;
    lines, tail := [], "";
    if from == |s| {
      assert CutTail("") by { EmptyTail(); }
    } else {
      var e := ChunkEnd(s, from, LINE_MAX - 1);
      var chunk := s[from..e];
      SomeChunk(s, from, LINE_MAX - 1);
      ChunkIs(s, cls, from, found);
      if chunk[|chunk| - 1] == '\n' {
        Past(s, cls, from, found);
        lines, tail := AcceptedLines(s, cls, e, found || cls(chunk) == Match);
        assert s[from..] == chunk + s[e..];
        lines := [chunk] + lines;
      } else {
        tail := chunk;
      }
    }
  }

  lemma EmptyTail()
    ensures CutTail("")
  {
  }

  lemma Past(s: string, cls: string -> Class, from: nat, found: bool)
    requires from < |s| && Scan(s, cls, from, found) != Refused
    requires var e := ChunkEnd(s, from, LINE_MAX - 1); e > from && s[e - 1] == '\n'
    ensures var e := ChunkEnd(s, from, LINE_MAX - 1); Scan(s, cls, from, found) == Scan(s, cls, e, found || cls(s[from..e]) == Match)
  {
  }

  /** A log is refused exactly if it is not acceptable, and then an attempt touches nothing and the mark stays. */
  lemma RefusedExactly(d: Disk, cls: string -> Class, line: string, f: Faults)
    ensures Scan(d.view, cls, 0, false) == Refused <==> !Acceptable(d.view, cls)
    ensures !Acceptable(d.view, cls) ==> Attempt(d, cls, line, f) == Attempted(d, false)
  {
    hide Scan, CutTail, GoodLine, Text;
    if Scan(d.view, cls, 0, false) != Refused {
      var lines, tail := AcceptedLines(d.view, cls, 0, false);
      assert d.view[0..] == d.view;
    } else if Acceptable(d.view, cls) {
      var lines, tail :| GoodLines(lines, cls) && CutTail(tail) && d.view == Text(lines) + tail;
      assert d.view[0..] == d.view;
      ScanLines(d.view, cls, 0, false, lines, tail);
    }
  }

  lemma BadStep(s: string, cls: string -> Class, from: nat, found: bool, bad: string)
    requires from + |bad| <= |s| && s[from..from + |bad|] == bad && cls(bad) == Bad
    requires 0 < |bad| < LINE_MAX && bad[|bad| - 1] == '\n' && forall k :: 0 <= k < |bad| - 1 ==> bad[k] != '\n' && bad[k] != '\0'
    ensures Scan(s, cls, from, found) == Refused
  {
    ChunkOfLine(s, from, bad, LINE_MAX - 1);
    WholeLength(bad);
  }

  lemma {:induction false} BadLineScanned(s: string, cls: string -> Class, from: nat, found: bool, lines: seq<string>, bad: string)
    requires from <= |s| && GoodLines(lines, cls) && Text(lines) + bad <= s[from..] && cls(bad) == Bad
    requires 0 < |bad| < LINE_MAX && bad[|bad| - 1] == '\n' && forall k :: 0 <= k < |bad| - 1 ==> bad[k] != '\n' && bad[k] != '\0'
    ensures Scan(s, cls, from, found) == Refused
    decreases |lines|
  {
    hide Scan, GoodLine;
    if lines == [] {
      assert Text([]) + bad == bad;
      assert s[from..from + |bad|] == bad;
      BadStep(s, cls, from, found, bad);
    } else {
      var line, rest := lines[0], lines[1..];
      assert Text(lines) + bad == line + (Text(rest) + bad);
      assert s[from..from + |line|] == line;
      assert Text(rest) + bad <= s[from + |line|..];
      ScanStep(s, cls, from, found, line);
      BadLineScanned(s, cls, from + |line|, found || cls(line) == Match, rest, bad);
    }
  }

  /** One bad complete line anywhere in the log, whatever follows it, and no attempt touches the file or clears the mark. */
  lemma BadLineRefused(d: Disk, cls: string -> Class, line: string, f: Faults, lines: seq<string>, bad: string)
    requires GoodLines(lines, cls) && Text(lines) + bad <= d.view && cls(bad) == Bad
    requires 0 < |bad| < LINE_MAX && bad[|bad| - 1] == '\n' && forall k :: 0 <= k < |bad| - 1 ==> bad[k] != '\n' && bad[k] != '\0'
    ensures Attempt(d, cls, line, f) == Attempted(d, false)
  {
    hide Scan, GoodLine, Text;
    assert d.view[0..] == d.view;
    BadLineScanned(d.view, cls, 0, false, lines, bad);
  }

  lemma OneMatch(lines: seq<string>, cls: string -> Class, line: string)
    requires Matches(lines, cls) <= 1 && EventLine(line, cls)
    ensures if HasMatch(lines, cls) then Matches(lines, cls) == 1 else Matches(lines + [line], cls) == 1
  {
    MatchesSnoc(lines, cls, line);
    MatchesSome(lines, cls);
  }

  lemma {:induction false} MatchesSnoc(lines: seq<string>, cls: string -> Class, line: string)
    ensures Matches(lines + [line], cls) == Matches(lines, cls) + (if cls(line) == Match then 1 else 0)
  {
    if lines == [] {
      assert lines + [line] == [line] && [line][1..] == [];
    } else {
      MatchesSnoc(lines[1..], cls, line);
      assert (lines + [line])[1..] == lines[1..] + [line];
    }
  }

  lemma {:induction false} MatchesSome(lines: seq<string>, cls: string -> Class)
    ensures HasMatch(lines, cls) <==> Matches(lines, cls) > 0
  {
    if lines != [] {
      MatchesSome(lines[1..], cls);
      MatchSplit(lines, cls);
    }
  }

  // ----- When the cleared event is durable -----

  /** The complete lines of a text that match, counted from the bytes alone. */
  function Events(s: string, cls: string -> Class): nat
    decreases |s|
  {
    var e := ChunkEnd(s, 0, |s|);
    if e == 0 || s[e - 1] != '\n' then 0 else (if cls(s[..e]) == Match then 1 else 0) + Events(s[e..], cls)
  }

  lemma {:induction false} EventsInText(lines: seq<string>, cls: string -> Class, tail: string)
    requires GoodLines(lines, cls) && CutTail(tail)
    ensures Events(Text(lines) + tail, cls) == Matches(lines, cls)
  {
    hide CutTail, GoodLine;
    if lines == [] {
      assert Text(lines) + tail == tail;
      NoEvents(tail, cls);
    } else {
      var line, rest := lines[0], lines[1..];
      assert Text(lines) + tail == line + (Text(rest) + tail);
      FirstEvent(line, cls, Text(rest) + tail);
      EventsInText(rest, cls, tail);
    }
  }

  lemma NoEvents(tail: string, cls: string -> Class)
    requires CutTail(tail)
    ensures Events(tail, cls) == 0
  {
    ChunkOfTail(tail, 0, |tail|);
  }

  lemma FirstEvent(line: string, cls: string -> Class, rest: string)
    requires GoodLine(line, cls)
    ensures Events(line + rest, cls) == (if cls(line) == Match then 1 else 0) + Events(rest, cls)
  {
    var s := line + rest;
    assert s[0..0 + |line|] == line && s[..|line|] == line && s[|line|..] == rest;
    ChunkOfLine(s, 0, line, |s|);
  }

  lemma TailIsNotLine(text: string, cls: string -> Class, line: string, tail: string)
    requires EventLine(line, cls) && CutTail(tail)
    ensures text + tail != text + line
  {
    assert (text + tail)[|text|..] == tail && (text + line)[|text|..] == line;
    assert |tail| == |line| ==> tail[|line| - 1] != line[|line| - 1];
  }

  /** Recorded bytes hold exactly one complete matching line; bytes of the shape without it hold as many as at the start. */
  lemma EventsIn(s: string, lines: seq<string>, cls: string -> Class, line: string)
    requires GoodLines(lines, cls) && EventLine(line, cls) && Shape(s, lines, cls, line) && Matches(lines, cls) <= 1
    ensures Events(s, cls) == 1 <==> HasMatch(lines, cls) || s == Text(lines) + line
  {
    hide Events, Text, HasMatch, Matches;
    OneMatch(lines, cls, line);
    MatchesSome(lines, cls);
    if tail :| CutTail(tail) && s == Text(lines) + tail {
      EventsInText(lines, cls, tail);
      TailIsNotLine(Text(lines), cls, line, tail);
    } else {
      TextSnoc(lines, line);
      assert s == Text(lines + [line]) + "";
      EventsInText(lines + [line], cls, "");
    }
  }

  /** The file reads back the appended event, but not all of it is durable. */
  predicate Lagging(d: Disk, lines: seq<string>, cls: string -> Class, line: string) {
    !HasMatch(lines, cls) && d.view == Text(lines) + line && d.durable != d.view
  }

  /** A durable event is never behind what the file reads back. */
  predicate InStep(d: Disk, lines: seq<string>, cls: string -> Class, line: string) {
    !HasMatch(lines, cls) && d.durable == Text(lines) + line ==> d.view == d.durable
  }

  lemma ScanEvent(lines: seq<string>, cls: string -> Class, line: string)
    requires GoodLines(lines, cls) && EventLine(line, cls)
    ensures Scan(Text(lines) + line, cls, 0, false) == Clean(true)
  {
    hide HasMatch, Scan, Text;
    var s := Text(lines) + line;
    TextSnoc(lines, line);
    assert s[0..] == Text(lines + [line]) + "";
    MatchLast(lines, cls, line);
    ScanLines(s, cls, 0, false, lines + [line], "");
  }

  /** When an attempt clears the mark, exactly one complete matching line is durable, unless it found the
      event unsynced and had nothing to write. */
  lemma ClearedDurably(d: Disk, lines: seq<string>, cls: string -> Class, line: string, f: Faults)
    requires GoodLines(lines, cls) && EventLine(line, cls) && Shaped(d, lines, cls, line) && Matches(lines, cls) <= 1
    requires Attempt(d, cls, line, f).cleared
    ensures Events(Attempt(d, cls, line, f).disk.view, cls) == 1
    ensures Events(Attempt(d, cls, line, f).disk.durable, cls) == 1 <==> !Lagging(d, lines, cls, line)
    ensures Events(Attempt(d, cls, line, f).disk.durable, cls) == 1
      <==> HasMatch(lines, cls) || d.durable == d.view || Scan(d.view, cls, 0, false) != Clean(true)
  {
    hide HasMatch, Scan, Text, CutTail, EventLine, GoodLine, Events, Shape, Matches;
    var a := Attempt(d, cls, line, f).disk;
    AttemptKeeps(d, lines, cls, line, f);
    ScanShape(d.view, lines, cls, line);
    ScanEvent(lines, cls, line);
    EventsIn(a.view, lines, cls, line);
    EventsIn(a.durable, lines, cls, line);
  }

  /** The attempt appended the whole line and could not sync it. */
  predicate FailsSync(d: Disk, cls: string -> Class, line: string, f: Faults) {
    && f.opens && f.wrote >= |line| && !f.syncs && |line| < LINE_MAX
    && match Scan(d.view, cls, 0, false)
       case Refused => false
       case Clean(found) => !found
       case Torn(found, keep) => !found && f.truncates && keep <= |d.view| && f.syncsTail
  }

  /** Since the last reset an attempt appended the event and could not sync it. */
  predicate Unsynced(d: Disk, lines: seq<string>, cls: string -> Class, line: string, events: seq<Event>, n: nat)
    requires n <= |events|
  {
    n > 0 && events[n - 1].Try? &&
    (Unsynced(d, lines, cls, line, events, n - 1)
     || var before := After(d, lines, cls, line, events, n - 1);
        before.Some? && FailsSync(before.value, cls, line, events[n - 1].faults))
  }

  lemma AttemptLags(d: Disk, lines: seq<string>, cls: string -> Class, line: string, f: Faults)
    requires GoodLines(lines, cls) && EventLine(line, cls) && Shaped(d, lines, cls, line) && InStep(d, lines, cls, line)
    ensures var a := Attempt(d, cls, line, f).disk;
      InStep(a, lines, cls, line) && (Lagging(a, lines, cls, line) <==> Lagging(d, lines, cls, line) || FailsSync(d, cls, line, f))
  {
    hide HasMatch, Scan, Text, CutTail, EventLine, GoodLine, Shape;
    ScanShape(d.view, lines, cls, line);
    ScanEvent(lines, cls, line);
    LineSize(cls, line);
  }

  lemma LineSize(cls: string -> Class, line: string)
    requires EventLine(line, cls)
    ensures 1 < |line| < LINE_MAX
  {
  }

  /** In a run from a log in step with its durable bytes, the event lags exactly while a failed sync is
      not yet behind a reset. */
  lemma {:induction false} RunLags(d: Disk, lines: seq<string>, cls: string -> Class, line: string, events: seq<Event>, n: nat)
    requires GoodLines(lines, cls) && EventLine(line, cls) && Shaped(d, lines, cls, line) && d.view == d.durable && n <= |events|
    requires After(d, lines, cls, line, events, n).Some?
    ensures var s := After(d, lines, cls, line, events, n).value;
      InStep(s, lines, cls, line) && (Lagging(s, lines, cls, line) <==> Unsynced(d, lines, cls, line, events, n))
  {
    hide Shape, Shaped, Attempt, Remains, EventLine, GoodLines, HasMatch, Text, FailsSync;
    if n > 0 {
      RunLags(d, lines, cls, line, events, n - 1);
      RunKeeps(d, lines, cls, line, events, n - 1);
      if events[n - 1].Try? {
        AttemptLags(After(d, lines, cls, line, events, n - 1).value, lines, cls, line, events[n - 1].faults);
      }
    }
  }

  /** In every run, when the pending mark is cleared exactly one complete matching line is durable if and
      only if no attempt since the last reset appended the event and could not sync it. */
  lemma ClearedDurablyExactly(d: Disk, lines: seq<string>, cls: string -> Class, line: string, events: seq<Event>, n: nat, f: Faults)
    requires GoodLines(lines, cls) && EventLine(line, cls) && Shaped(d, lines, cls, line) && d.view == d.durable && n <= |events|
    requires Matches(lines, cls) <= 1
    requires var s := After(d, lines, cls, line, events, n); s.Some? && Attempt(s.value, cls, line, f).cleared
    ensures var a := Attempt(After(d, lines, cls, line, events, n).value, cls, line, f).disk;
      Events(a.durable, cls) == 1 <==> !Unsynced(d, lines, cls, line, events, n)
  {
    hide Shape, Shaped, Attempt, EventLine, GoodLines, HasMatch, Text, Scan, Matches, Events, Lagging, Unsynced;
    RunKeeps(d, lines, cls, line, events, n);
    RunLags(d, lines, cls, line, events, n);
    ClearedDurably(After(d, lines, cls, line, events, n).value, lines, cls, line, f);
  }

  /** The mark can be cleared while the event is not durable: a failed sync, then a retry before any
      reset that finds the unsynced line, and a power cut loses it. */
  lemma ClearedThenLost(cls: string -> Class, line: string, fails: Faults, works: Faults)
    requires EventLine(line, cls)
    requires fails == Faults(true, true, true, |line|, false, true) && works == Faults(true, true, true, 0, true, true)
    ensures var first := Attempt(Disk("", ""), cls, line, fails); var second := Attempt(first.disk, cls, line, works);
      !first.cleared && second.cleared && second.disk.durable == "" && Remains(second.disk, [], "")
  {
    hide Scan;
    ScanTail("", cls, 0, false, "");
    assert line[0..] == line && line[0..0 + |line|] == line && "" + line == line;
    ScanStep(line, cls, 0, false, line);
    ScanTail(line, cls, |line|, true, "");
  }
}
