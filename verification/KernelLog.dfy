/** The kernel log: a ring of records, readers that follow it, and the console line that feeds it. */
module KernelLog {
  import opened Numerals
  import opened Joins
  import opened Sequences

  const CAPACITY := 128
  const LINE_SIZE := 384
  const IDENT_SIZE := 32
  const TEXT_SIZE := 224
  const U32 := 0x1_0000_0000
  const U64 := 0x1_0000_0000_0000_0000

  datatype Record = Record(
    sequence: nat, timestamp: nat, cpu: nat, thread: nat, source: nat, priority: nat, ident: string, message: string)

  /** The fields fit the widths they are declared with. */
  predicate InWidth(r: Record) {
    && r.sequence < U64 && r.timestamp < U64 && r.cpu < U32 && r.thread < U32 && r.source < U32 && r.priority < U32
    && |r.ident| < IDENT_SIZE && |r.message| < TEXT_SIZE
  }

  /** What a C string holds: the characters before the first NUL. */
  function Text(s: string): (t: string)
    ensures |t| <= |s|
  {
    if s == [] || s[0] == '\0' then [] else [s[0]] + Text(s[1..])
  }

  function Decimal(v: nat): string {
    Numeral(v, 10, false)
  }

  // ---- One line -----------------------------------------------------------

  function Field(value: nat, separator: char): string {
    Decimal(value) + [separator]
  }

  function Head(r: Record): string {
    Field(r.priority, ',') + Field(r.sequence, ',') + Field(r.timestamp, ',') + Field(r.source, ',') + Field(r.cpu, ',') + Field(r.thread, ';')
  }

  function Ident(r: Record): string {
    if r.ident == [] then [] else Text(r.ident) + ": "
  }

  /** A record as readers see it. */
  function Line(r: Record): (s: string)
    ensures s != [] && s[|s| - 1] == '\n'
  {
    Head(r) + Ident(r) + Text(r.message) + "\n"
  }

  lemma Powers()
    ensures U32 <= Power(10, 10) && U64 <= Power(10, 20)
  {
    assert Power(10, 5) == 100_000;
    assert Power(10, 10) == 10_000_000_000;
    assert Power(10, 15) == 1_000_000_000_000_000;
    assert Power(10, 20) == 100_000_000_000_000_000_000;
  }

  /** No line is longer than 343 characters, so the line buffer never cuts one off. */
  lemma LineFits(r: Record)
    requires InWidth(r)
    ensures |Line(r)| <= 343 < LINE_SIZE
  {
    Powers();
    NumeralLength(r.priority, 10, false, 10);
    NumeralLength(r.sequence, 10, false, 20);
    NumeralLength(r.timestamp, 10, false, 20);
    NumeralLength(r.source, 10, false, 10);
    NumeralLength(r.cpu, 10, false, 10);
    NumeralLength(r.thread, 10, false, 10);
  }

  /** What a buffer that held `line` holds after `text` was appended: one place is kept for the final NUL. */
  function Appended(line: string, capacity: nat, text: string): string {
    if |line| + 1 >= capacity then line
    else if |text| <= capacity - 1 - |line| then line + text
    else line + text[..capacity - 1 - |line|]
  }

  lemma AppendTwice(line: string, capacity: nat, a: string, b: string)
    ensures Appended(Appended(line, capacity, a), capacity, b) == Appended(line, capacity, a + b)
  {
    if |line| + 1 < capacity {
      var room := capacity - 1 - |line|;
      if |a| <= room {
        if |a + b| > room { Prefixes(line, a, b, room); } else { Regroup(line, a, b); }
      } else {
        assert (a + b)[..room] == a[..room];
      }
    }
  }

  lemma Prefixes(line: string, a: string, b: string, room: nat)
    requires |a| <= room < |a + b|
    ensures line + (a + b)[..room] == (line + a) + b[..room - |a|]
  {
  }

  method AppendChar(line: string, capacity: nat, c: char) returns (r: string)
    ensures r == Appended(line, capacity, [c])
  {
    r := if |line| + 1 >= capacity then line else line + [c];
  }

  method AppendString(line: string, capacity: nat, text: string) returns (r: string)
    ensures r == Appended(line, capacity, Text(text))
  {
    r := line;
    var i := 0;
    while i < |text| && text[i] != '\0' && |r| + 1 < capacity
      invariant 0 <= i <= |text|
      invariant Appended(r, capacity, Text(text[i..])) == Appended(line, capacity, Text(text))
    {
      assert text[i..][1..] == text[i + 1..];
      AppendTwice(r, capacity, [text[i]], Text(text[i + 1..]));
      r := r + [text[i]];
      i := i + 1;
    }
  }

  method AppendNumber(line: string, capacity: nat, value: nat) returns (r: string)
    ensures r == Appended(line, capacity, Decimal(value))
  {
    var digits := DigitsBackwards(value, 10, false);
    r := line;
    var count := |digits|;
    ReversedAll(digits);
    while count != 0
      invariant 0 <= count <= |digits|
      invariant Appended(r, capacity, Reversed(digits[..count])) == Appended(line, capacity, Decimal(value))
    {
      count := count - 1;
      assert digits[..count + 1] == digits[..count] + [digits[count]];
      ReversedSnoc(digits[..count], digits[count]);
      AppendTwice(r, capacity, [digits[count]], Reversed(digits[..count]));
      r := AppendChar(r, capacity, digits[count]);
    }
  }

  lemma ReversedAll(s: string)
    ensures s[..|s|] == s
  {
  }

  method AppendField(line: string, capacity: nat, value: nat, separator: char) returns (r: string)
    ensures r == Appended(line, capacity, Field(value, separator))
  {
    AppendTwice(line, capacity, Decimal(value), [separator]);
    r := AppendNumber(line, capacity, value);
    r := AppendChar(r, capacity, separator);
  }

  method FormatHead(record: Record, capacity: nat) returns (line: string)
    ensures line == Appended([], capacity, Head(record))
  {
    ghost var text := Field(record.priority, ',');
    line := AppendField([], capacity, record.priority, ',');
    AppendTwice([], capacity, text, Field(record.sequence, ','));
    line := AppendField(line, capacity, record.sequence, ',');
    text := text + Field(record.sequence, ',');
    AppendTwice([], capacity, text, Field(record.timestamp, ','));
    line := AppendField(line, capacity, record.timestamp, ',');
    text := text + Field(record.timestamp, ',');
    AppendTwice([], capacity, text, Field(record.source, ','));
    line := AppendField(line, capacity, record.source, ',');
    text := text + Field(record.source, ',');
    AppendTwice([], capacity, text, Field(record.cpu, ','));
    line := AppendField(line, capacity, record.cpu, ',');
    text := text + Field(record.cpu, ',');
    AppendTwice([], capacity, text, Field(record.thread, ';'));
    line := AppendField(line, capacity, record.thread, ';');
  }

  method FormatRecord(record: Record, capacity: nat) returns (line: string)
    ensures line == Appended([], capacity, Line(record))
    ensures InWidth(record) && capacity == LINE_SIZE ==> line == Line(record)
  {
    line := FormatHead(record, capacity);
    ghost var text := Head(record);
    if record.ident != [] {
      AppendTwice([], capacity, text, Text(record.ident));
      line := AppendString(line, capacity, record.ident);
      text := text + Text(record.ident);
      AppendTwice([], capacity, text, ": ");
      line := AppendString(line, capacity, ": ");
      assert Text(": ") == ": ";
      text := text + ": ";
      assert text == Head(record) + Ident(record);
    } else {
      assert text == Head(record) + Ident(record);
    }
    AppendTwice([], capacity, text, Text(record.message));
    line := AppendString(line, capacity, record.message);
    text := text + Text(record.message);
    AppendTwice([], capacity, text, "\n");
    line := AppendChar(line, capacity, '\n');
    if InWidth(record) { LineFits(record); }
  }

  // ---- What a reader should get -------------------------------------------

  /** The oldest record still in the ring. */
  function Oldest(written: nat): nat {
    if written > CAPACITY then written - CAPACITY else 0
  }

  /** Where a reader that asks for `start` begins. */
  function From(written: nat, start: nat): (r: nat)
    ensures r <= written
  {
    if start < Oldest(written) then Oldest(written) else if start > written then written else start
  }

  function Dropped(written: nat, start: nat): nat {
    if start < Oldest(written) then Oldest(written) - start else 0
  }

  /** One read accounts for every record it moves past, exactly if it does not start beyond the end. */
  lemma ReadConserves(lines: seq<string>, start: nat, room: nat)
    ensures var from := From(|lines|, start); var next := Reaches(lines, from, room);
      (next - from) + Dropped(|lines|, start) == next - start <==> start <= |lines|
  {
  }

  // ---- Following the log --------------------------------------------------

  /** A reader: where it will go on, which records it was given, their text, and how many it was told it lost. */
  datatype Reader = Reader(next: nat, delivered: seq<nat>, text: string, dropped: nat)

  datatype Event = Written(line: string) | Read(room: nat)

  function Grown(lines: seq<string>, e: Event): seq<string> {
    match e case Written(line) => lines + [line] case Read(_) => lines
  }

  function Numbers(from: nat, to: nat): (r: seq<nat>)
    requires from <= to
    ensures |r| == to - from && forall k :: 0 <= k < |r| ==> r[k] == from + k
  {
    seq(to - from, k => from + k)
  }

  /** The reader goes on where the last read told it to. */
  function Follow(lines: seq<string>, r: Reader, e: Event): Reader {
    match e
    case Written(_) => r
    case Read(room) =>
      if room == 0 then r
      else
        var from := From(|lines|, r.next);
        var next := Reaches(lines, from, room);
        Reader(next, r.delivered + Numbers(from, next), r.text + Concat(lines[from..next]), r.dropped + Dropped(|lines|, r.next))
  }

  ghost predicate Session(lines: seq<string>, r: Reader, events: seq<Event>, later: seq<string>, q: Reader)
    decreases |events|
  {
    if events == [] then lines == later && r == q
    else Session(Grown(lines, events[0]), Follow(lines, r, events[0]), events[1..], later, q)
  }

  /** The numbers are those of lines before `next`, each once and in order. */
  ghost predicate InOrder(delivered: seq<nat>, next: nat) {
    && (forall k :: 0 <= k < |delivered| ==> delivered[k] < next)
    && (forall j, k :: 0 <= j < k < |delivered| ==> delivered[j] < delivered[k])
  }

  function Pick(lines: seq<string>, delivered: seq<nat>): seq<string>
    requires forall k :: 0 <= k < |delivered| ==> delivered[k] < |lines|
  {
    seq(|delivered|, k requires 0 <= k < |delivered| => lines[delivered[k]])
  }

  /** What the reader has seen is accounted for, and is the text of exactly those records. */
  ghost predicate Accounted(lines: seq<string>, start: nat, r: Reader) {
    && r.next <= |lines| && InOrder(r.delivered, r.next) && |r.delivered| + r.dropped == r.next - start
    && r.text == Concat(Pick(lines, r.delivered))
  }

  lemma PickMore(lines: seq<string>, delivered: seq<nat>, from: nat, to: nat)
    requires (forall k :: 0 <= k < |delivered| ==> delivered[k] < |lines|) && from <= to <= |lines|
    ensures Concat(Pick(lines, delivered + Numbers(from, to))) == Concat(Pick(lines, delivered)) + Concat(lines[from..to])
  {
    assert Pick(lines, delivered + Numbers(from, to)) == Pick(lines, delivered) + lines[from..to];
    ConcatAppend(Pick(lines, delivered), lines[from..to]);
  }

  lemma FollowAccounts(lines: seq<string>, start: nat, r: Reader, e: Event)
    requires Accounted(lines, start, r)
    ensures Accounted(Grown(lines, e), start, Follow(lines, r, e))
  {
    match e
    case Written(line) => assert Pick(lines + [line], r.delivered) == Pick(lines, r.delivered);
    case Read(room) =>
      if room != 0 {
        var from := From(|lines|, r.next);
        PickMore(lines, r.delivered, from, Reaches(lines, from, room));
      }
  }

  /** Whatever is written in between, a reader that follows the log misses nothing uncounted and sees each record once, in order. */
  lemma {:induction false} ReaderConservation(lines: seq<string>, start: nat, r: Reader, events: seq<Event>, later: seq<string>, q: Reader)
    requires Accounted(lines, start, r) && Session(lines, r, events, later, q)
    ensures Accounted(later, start, q)
    decreases |events|
  {
    if events != [] {
      FollowAccounts(lines, start, r, events[0]);
      ReaderConservation(Grown(lines, events[0]), start, Follow(lines, r, events[0]), events[1..], later, q);
    }
  }

  // ---- The log ------------------------------------------------------------

  /** At most `size - 1` characters, as a bounded copy keeps them. */
  function Bounded(s: string, size: nat): (r: string)
    requires size > 0
    ensures |r| < size
  {
    if |s| >= size then s[..size - 1] else s
  }

  lemma BoundedSame(s: string, size: nat)
    requires |s| < size
    ensures Bounded(s, size) == s
  {
  }

  /** What is known about the caller when a record is written. */
  datatype Context = Context(timestamp: nat, cpu: nat, thread: nat)

  predicate ContextOk(c: Context) {
    c.timestamp < U64 && c.cpu < U32 && c.thread < U32
  }

  /** The characters of console output that end up in the log. */
  function Kept(c: char): string {
    if c in {'\0', '\r', '\n'} then [] else [c]
  }

  const KERNEL_SOURCE := 1
  const INFO := 6

  /** The record that a console line becomes. */
  function ConsoleRecord(sequence: nat, line: string, c: Context): Record {
    Record(sequence, c.timestamp, c.cpu, c.thread, KERNEL_SOURCE, INFO, "kernel", line)
  }

  /** The log after an unfinished console line was flushed; an empty one leaves no record. */
  function Flushed(history: seq<Record>, line: string, c: Context): seq<Record> {
    if line == [] then history else history + [ConsoleRecord(|history|, line, c)]
  }

  /** The log and the unfinished line after one character of console output. */
  function Captured(history: seq<Record>, line: string, ch: char, c: Context): (seq<Record>, string) {
    if ch == '\0' || ch == '\r' then (history, line)
    else if ch == '\n' then (Flushed(history, line, c), [])
    else if |line| + 1 >= TEXT_SIZE then (Flushed(history, line, c), [ch])
    else (history, line + [ch])
  }

  /** The records at these places of the log, in this order, are console lines. */
  ghost predicate FromConsole(history: seq<Record>, places: seq<nat>) {
    && (forall j :: 0 <= j < |places| ==> places[j] < |history| && IsConsole(history[places[j]]))
    && (forall j, k :: 0 <= j < k < |places| ==> places[j] < places[k])
  }

  predicate IsConsole(r: Record) {
    r.source == KERNEL_SOURCE && r.priority == INFO && r.ident == "kernel"
  }

  /** Their messages, one after the other. */
  ghost function Messages(history: seq<Record>, places: seq<nat>): string
    requires FromConsole(history, places)
  {
    if places == [] then [] else Messages(history, places[..|places| - 1]) + history[places[|places| - 1]].message
  }

  /** Records that are added later do not change them. */
  lemma {:induction false} MessagesKept(history: seq<Record>, more: seq<Record>, places: seq<nat>)
    requires FromConsole(history, places)
    ensures FromConsole(history + more, places) && Messages(history + more, places) == Messages(history, places)
    decreases |places|
  {
    if places != [] {
      MessagesKept(history, more, places[..|places| - 1]);
    }
  }

  lemma MessagesSnoc(history: seq<Record>, places: seq<nat>, line: string, c: Context) returns (more: seq<nat>)
    requires FromConsole(history, places)
    ensures var later := history + [ConsoleRecord(|history|, line, c)];
      FromConsole(later, more) && Messages(later, more) == Messages(history, places) + line
  {
    more := places + [|history|];
    MessagesKept(history, [ConsoleRecord(|history|, line, c)], places);
    assert more[..|places|] == places;
  }

  /** Record `i` of the log is numbered `i` and reads as line `i`. */
  ghost predicate Entry(history: seq<Record>, lines: seq<string>, i: nat) {
    i < |history| && i < |lines| && history[i].sequence == i && InWidth(history[i]) && lines[i] == Line(history[i])
  }

  /** The lines before `i` have `passed` characters, and `text` is the asked slice of them. */
  ghost predicate Sliced(lines: seq<string>, oldest: nat, i: nat, offset: nat, size: nat, text: string, passed: nat) {
    && oldest <= i <= |lines| && passed == |Concat(lines[oldest..i])|
    && text == Slice(Concat(lines[oldest..i]), offset, size) && |text| <= size
  }

  /** One more line of the slice. */
  lemma SlicedNext(lines: seq<string>, oldest: nat, i: nat, offset: nat, size: nat, text: string, passed: nat)
    requires Sliced(lines, oldest, i, offset, size, text, passed) && i < |lines|
    ensures Sliced(lines, oldest, i + 1, offset, size, text + Part(lines[i], passed, offset, size - |text|), passed + |lines[i]|)
  {
    ConcatSnoc(lines, oldest, i);
    SliceAppend(Concat(lines[oldest..i]), lines[i], offset, size);
  }

  /** The slice is whole once every line was seen or there is no more room. */
  lemma AllRead(lines: seq<string>, oldest: nat, i: nat, offset: nat, size: nat, text: string, passed: nat)
    requires Sliced(lines, oldest, i, offset, size, text, passed) && (i == |lines| || |text| >= size)
    ensures text == Slice(Concat(lines[oldest..]), offset, size)
  {
    if i == |lines| {
      assert lines[oldest..i] == lines[oldest..];
    } else {
      assert lines[oldest..] == lines[oldest..i] + lines[i..];
      ConcatAppend(lines[oldest..i], lines[i..]);
      SliceAppend(Concat(lines[oldest..i]), [], offset, size);
      SliceFull(Concat(lines[oldest..i]), Concat(lines[i..]), offset, size);
    }
  }

  class Log {
    const ring: array<Record>
    var written: nat
    var line: string                        // the unfinished console line
    ghost var history: seq<Record>          // every record since the log was cleared
    ghost var lines: seq<string>            // the same as text
    ghost var console: seq<nat>             // the records that came from the console
    ghost var output: string                // what was captured from the console

    /** The ring holds the newest records. */
    ghost predicate Held()
      reads this`written, this`history, this`lines, ring
    {
      && ring.Length == CAPACITY && |history| == |lines| == written < U64
      && (forall i: nat {:trigger Entry(history, lines, i)} :: i < written ==> Entry(history, lines, i))
      && (forall i :: Oldest(written) <= i < written ==> ring[i % CAPACITY] == history[i])
    }

    /** What was captured from the console is in its records and in the unfinished line. */
    ghost predicate Valid()
      reads this, ring
    {
      Held() && |line| < TEXT_SIZE && FromConsole(history, console) && Messages(history, console) + line == output
    }

    constructor ()
      ensures Valid() && history == [] && output == []
    {
      ring := new Record[CAPACITY](_ => Record(0, 0, 0, 0, 0, 0, [], []));
      written, line, history, lines, console, output := 0, [], [], [], [], [];
    }

    /** The record takes the place of the oldest one. */
    method Append(source: nat, priority: nat, ident: string, message: string, c: Context)
      requires Valid() && written + 1 < U64 && source < U32 && priority < U32 && ContextOk(c)
      modifies this`written, this`history, this`lines, ring
      ensures Valid()
      ensures history == old(history) + [Record(old(written), c.timestamp, c.cpu, c.thread, source, priority, Bounded(ident, IDENT_SIZE), Bounded(message, TEXT_SIZE))]
    {
      var record := Record(written, c.timestamp, c.cpu, c.thread, source, priority, Bounded(ident, IDENT_SIZE), Bounded(message, TEXT_SIZE));
      MessagesKept(history, [record], console);
      ring[written % CAPACITY] := record;
      history, lines := history + [record], lines + [Line(record)];
      written := written + 1;
      forall i: nat | i < written
        ensures Entry(history, lines, i)
      {
        if i < written - 1 { assert Entry(old(history), old(lines), i); }
      }
      forall i | Oldest(written) <= i < written
        ensures ring[i % CAPACITY] == history[i]
      {
        if i < written - 1 { OtherSlot(i, written - 1); }
      }
    }

    method LineAt(sequence: nat) returns (text: string)
      requires Valid() && Oldest(written) <= sequence < written
      ensures text == lines[sequence]
    {
      assert Entry(history, lines, sequence);
      text := FormatRecord(ring[sequence % CAPACITY], LINE_SIZE);
    }

    /** The lines from `start` on that fit, the number of the next record and how many were lost. */
    method CopyRecords(start: nat, size: nat) returns (text: string, next: nat, dropped: nat)
      requires Valid()
      ensures size == 0 ==> text == [] && next == start && dropped == 0
      ensures size > 0 ==> next == Reaches(lines, From(written, start), size)
      ensures size > 0 ==> text == Concat(lines[From(written, start)..next]) && dropped == Dropped(written, start)
    {
      if size == 0 { return [], start, 0; }
      dropped := 0;
      next := start;
      var oldest := Oldest(written);
      if next < oldest {
        dropped := oldest - next;
        next := oldest;
      }
      if next > written { next := written; }
      text, next := CopyFrom(next, size);
    }

    /** The lines from `from` on that fit, and where they end. */
    method CopyFrom(from: nat, size: nat) returns (text: string, next: nat)
      requires Valid() && Oldest(written) <= from <= written
      ensures next == Reaches(lines, from, size) && text == Concat(lines[from..next])
    {
      text, next := [], from;
      while next < written
        invariant from <= next <= written && text == Concat(lines[from..next]) && |text| <= size
        invariant Reaches(lines, next, size - |text|) == Reaches(lines, from, size)
      {
        var line := LineAt(next);
        if |line| > size - |text| { break; }
        ConcatSnoc(lines, from, next);
        text := text + line;
        next := next + 1;
      }
    }

    /** The character device: one slice of all the visible lines. */
    method Read(offset: nat, size: nat) returns (text: string)
      requires Valid()
      ensures text == Slice(Concat(lines[Oldest(written)..]), offset, size)
    {
      text := [];
      var passed: nat := 0;
      ghost var oldest := Oldest(written);
      var sequence := Oldest(written);
      while sequence < written && |text| < size
        invariant oldest <= sequence <= written && Sliced(lines, oldest, sequence, offset, size, text, passed)
      {
        var line := LineAt(sequence);
        SlicedNext(lines, oldest, sequence, offset, size, text, passed);
        var part := CopyPart(line, passed, offset, size - |text|);
        text := text + part;
        passed := passed + |line|;
        sequence := sequence + 1;
      }
      AllRead(lines, oldest, sequence, offset, size, text, passed);
    }

    method CopyPart(line: string, passed: nat, offset: nat, remaining: nat) returns (part: string)
      ensures part == Part(line, passed, offset, remaining)
    {
      if offset >= passed + |line| { return []; }
      var at := if offset > passed then offset - passed else 0;
      var available := |line| - at;
      var chunk := if available < remaining then available else remaining;
      part := line[at..at + chunk];
    }

    /** The unfinished console line becomes a record. */
    method FlushLine(c: Context)
      requires Valid() && written + 1 < U64 && ContextOk(c)
      modifies this, ring
      ensures Valid() && line == [] && output == old(output)
      ensures history == Flushed(old(history), old(line), c)
    {
      if |line| == 0 { return; }
      AppendLine(c);
      ghost var said := Messages(history, console);
      line := [];
      assert said + [] == said;
    }

    /** The record of the unfinished line, which is still there. */
    method AppendLine(c: Context)
      requires Valid() && written + 1 < U64 && ContextOk(c) && line != []
      modifies this`written, this`history, this`lines, this`console, ring
      ensures Held() && FromConsole(history, console) && Messages(history, console) == output
      ensures history == old(history) + [ConsoleRecord(|old(history)|, line, c)]
    {
      ghost var places: seq<nat> := MessagesSnoc(history, console, line, c);
      BoundedSame("kernel", IDENT_SIZE);
      BoundedSame(line, TEXT_SIZE);
      Append(KERNEL_SOURCE, INFO, "kernel", line, c);
      console := places;
    }

    /** One character of console output; lines end at a newline or when the buffer is full. Whatever is captured is,
        in order, in the messages of the console's records and in the unfinished line. */
    method CaptureChar(ch: char, c: Context)
      requires Valid() && written + 1 < U64 && ContextOk(c)
      modifies this, ring
      ensures Valid() && output == old(output) + Kept(ch)
      ensures (history, line) == Captured(old(history), old(line), ch, c)
    {
      if ch == '\0' || ch == '\r' { return; }
      if ch == '\n' {
        FlushLine(c);
        return;
      }
      if |line| + 1 >= TEXT_SIZE { FlushLine(c); }
      if |line| + 1 < TEXT_SIZE {
        assert [] + [ch] == [ch];
        line := line + [ch];
        output := output + [ch];
      }
    }
  }

  /** Two records that are both in the ring are in different places. */
  lemma OtherSlot(i: nat, j: nat)
    requires i < j < i + CAPACITY
    ensures i % CAPACITY != j % CAPACITY
  {
  }
}
