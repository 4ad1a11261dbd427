/** The trace export file: how it is written section by section, and how it is read back. */
module TraceExport {
  import opened Options
  import opened Packing
  import opened Sequences
  import Producer = TraceProducer

  const MAGIC := 0x54584558
  const SNAPSHOT_MAGIC := 0x54525543
  const HEADER_SIZE := 24
  const SECTION_SIZE := 44
  const NAME_SIZE := 16
  const KERNEL_SECTION := 1
  const PRODUCER_SECTION := 2
  const PRODUCER_LIMIT := 32

  /** How the structures of the file are laid out; a section's name follows its header. */
  datatype Format = Format(file: Layout, section: Layout, snapshot: Layout, kernelRecord: Layout, producer: Producer.Format)

  predicate FormatOk(f: Format) {
    && |f.file| == 6 && Size(f.file) == HEADER_SIZE && |f.section| == 7 && Size(f.section) == SECTION_SIZE - NAME_SIZE
    && |f.snapshot| == 10 && Size(f.snapshot) == 48 && |f.kernelRecord| == 9 && Size(f.kernelRecord) == 48
    && Producer.FormatOk(f.producer)
  }

  const FORMAT := Format([4, 2, 2, 4, 4, 8], [4, 4, 4, 4, 4, 4, 4], [4, 2, 2, 4, 4, 4, 4, 8, 8, 8], [8, 8, 8, 8, 4, 4, 2, 2, 4], Producer.FORMAT)

  lemma FormatFits()
    ensures FormatOk(FORMAT)
  {
    Producer.FormatFits();
    assert Size([4, 2, 2, 4, 4, 8]) == 24;
    assert Size([4, 4, 4, 4, 4, 4, 4]) == 28;
    assert Size([4, 2, 2, 4, 4, 4, 4, 8, 8, 8]) == 48;
    assert Size([8, 8, 8, 8, 4, 4, 2, 2, 4]) == 48;
  }

  // ---- Writing ------------------------------------------------------------

  datatype Section = Section(kind: nat, clock: nat, id: nat, category: nat, tid: nat, count: nat, name: Bytes, payload: Bytes)

  /** The name in its field: cut off so that a NUL follows, and filled with NULs. */
  function NameField(name: Bytes): (b: Bytes)
    ensures |b| == NAME_SIZE
  {
    var n := if |name| < NAME_SIZE then name else name[..NAME_SIZE - 1];
    n + seq(NAME_SIZE - |n|, _ => 0)
  }

  function SectionValues(s: Section): (v: seq<nat>)
    ensures |v| == 7
  {
    [s.kind, SECTION_SIZE + |s.payload|, s.clock, s.id, s.category, s.tid, s.count]
  }

  function SectionBytes(f: Format, s: Section): (b: Bytes)
    requires FormatOk(f)
    ensures |b| == SECTION_SIZE + |s.payload|
  {
    Pack(f.section, SectionValues(s)) + NameField(s.name) + s.payload
  }

  function Blocks(f: Format, sections: seq<Section>): (b: seq<Bytes>)
    requires FormatOk(f)
    ensures |b| == |sections|
  {
    seq(|sections|, i requires 0 <= i < |sections| => SectionBytes(f, sections[i]))
  }

  function Body(f: Format, sections: seq<Section>): Bytes
    requires FormatOk(f)
  {
    Cat(Blocks(f, sections))
  }

  function HeaderBytes(f: Format, sections: nat, total: nat): (b: Bytes)
    requires FormatOk(f)
    ensures |b| == HEADER_SIZE
  {
    Pack(f.file, HeaderValues(sections, total))
  }

  /** The file that holds these sections. */
  function ExportBytes(f: Format, sections: seq<Section>): Bytes
    requires FormatOk(f)
  {
    File(f, |sections|, Body(f, sections))
  }

  function File(f: Format, n: nat, body: Bytes): (b: Bytes)
    requires FormatOk(f)
    ensures |b| == HEADER_SIZE + |body|
  {
    HeaderBytes(f, n, HEADER_SIZE + |body|) + body
  }

  /** A registered producer, with the contents of its file if that can be opened. */
  datatype Entry = Entry(used: bool, id: U32, tid: U32, category: U32, name: Bytes, file: Option<Bytes>)

  /** The entries that the export passes over. */
  predicate Skipped(e: Entry) {
    !e.used || e.id == 0 || e.id > PRODUCER_LIMIT || e.file.None?
  }

  /** The section a producer contributes, if it has records. */
  function SectionOf(f: Format, e: Entry): Option<Section>
    requires FormatOk(f)
  {
    if Skipped(e) then None
    else
      var loaded := Producer.Load(f.producer, e.file.value);
      if loaded.None? || loaded.value.count == 0 then None
      else Some(Section(PRODUCER_SECTION, 2, e.id, e.category, e.tid, loaded.value.count, e.name, loaded.value.bytes))
  }

  function SectionsOf(f: Format, entries: seq<Entry>): seq<Section>
    requires FormatOk(f)
  {
    if entries == [] then []
    else
      var n := |entries| - 1;
      SectionsOf(f, entries[..n]) + OptionSeq(SectionOf(f, entries[n]))
  }

  function OptionSeq<T>(o: Option<T>): seq<T> {
    if o.None? then [] else [o.value]
  }

  /** What a write has not reached of an older file. */
  function Rest(stale: Bytes, n: nat): Bytes {
    if n <= |stale| then stale[n..] else []
  }

  lemma WriteNext(stale: Bytes, done: Bytes, b: Bytes)
    ensures WriteAt(done + Rest(stale, |done|), |done|, b) == (done + b) + Rest(stale, |done| + |b|)
  {
  }

  lemma Rewrite(head: Bytes, later: Bytes, rest: Bytes)
    requires |head| == |later|
    ensures WriteAt(head + rest, 0, later) == later + rest
  {
  }

  lemma BodySnoc(f: Format, sections: seq<Section>, s: Section)
    requires FormatOk(f)
    ensures Body(f, sections + [s]) == Body(f, sections) + SectionBytes(f, s)
  {
    assert Blocks(f, sections + [s]) == Blocks(f, sections) + [SectionBytes(f, s)];
    CatConcat(Blocks(f, sections), [SectionBytes(f, s)]);
    CatOne(SectionBytes(f, s));
  }

  /** The file so far: a first header, the sections, and what is left of an older file. */
  ghost predicate Written(f: Format, file: Bytes, total: nat, start: Bytes, stale: Bytes, sections: seq<Section>)
    requires FormatOk(f)
  {
    total == |start| + |Body(f, sections)| && file == (start + Body(f, sections)) + Rest(stale, total)
  }

  /** Writes the kernel snapshot and one section per producer, then goes back and fills in the header. */
  method WriteExport(f: Format, stale: Bytes, kernel: Bytes, entries: seq<Entry>) returns (file: Bytes, total: nat)
    requires FormatOk(f)
    ensures var sections := [KernelSection(kernel)] + SectionsOf(f, entries);
      file == ExportBytes(f, sections) + Rest(stale, total) && total == |ExportBytes(f, sections)|
  {
    var start := HeaderBytes(f, 0, HEADER_SIZE);
    file, total := WriteKernel(f, stale, kernel, start);
    var count;
    file, total, count := WriteProducers(f, file, total, entries, start, stale, [KernelSection(kernel)]);
    Finished(f, file, total, start, stale, [KernelSection(kernel)] + SectionsOf(f, entries));
    file := WriteAt(file, 0, HeaderBytes(f, count, total));
  }

  lemma Finished(f: Format, file: Bytes, total: nat, start: Bytes, stale: Bytes, sections: seq<Section>)
    requires FormatOk(f) && |start| == HEADER_SIZE && Written(f, file, total, start, stale, sections)
    ensures WriteAt(file, 0, HeaderBytes(f, |sections|, total)) == ExportBytes(f, sections) + Rest(stale, total)
    ensures total == |ExportBytes(f, sections)|
  {
    var header := HeaderBytes(f, |sections|, total);
    Regroup(start, Body(f, sections), Rest(stale, total));
    Rewrite(start, header, Body(f, sections) + Rest(stale, total));
    Regroup(header, Body(f, sections), Rest(stale, total));
  }

  method WriteKernel(f: Format, stale: Bytes, kernel: Bytes, start: Bytes) returns (file: Bytes, total: nat)
    requires FormatOk(f) && |start| == HEADER_SIZE
    ensures Written(f, file, total, start, stale, [KernelSection(kernel)])
  {
    WriteNext(stale, [], start);
    assert stale == [] + Rest(stale, 0) && [] + start == start && start + Body(f, []) == start;
    file := WriteAt(stale, 0, start);
    file, total := AppendSection(f, file, HEADER_SIZE, KernelSection(kernel), start, stale, []);
    assert [] + [KernelSection(kernel)] == [KernelSection(kernel)];
  }

  method WriteProducers(f: Format, before: Bytes, at: nat, entries: seq<Entry>, ghost start: Bytes, ghost stale: Bytes, ghost first: seq<Section>)
    returns (file: Bytes, total: nat, count: nat)
    requires FormatOk(f) && |first| == 1 && Written(f, before, at, start, stale, first)
    ensures Written(f, file, total, start, stale, first + SectionsOf(f, entries)) && count == |first + SectionsOf(f, entries)|
  {
    file, total, count := before, at, 1;
    ghost var sections := first;
    for k := 0 to |entries|
      invariant sections == first + SectionsOf(f, entries[..k]) && count == |sections| && Written(f, file, total, start, stale, sections)
    {
      assert entries[..k + 1][..k] == entries[..k];
      var next := SectionOf(f, entries[k]);
      if next.Some? {
        file, total := AppendSection(f, file, total, next.value, start, stale, sections);
        sections := sections + [next.value];
        count := count + 1;
      }
    }
    assert entries[..|entries|] == entries;
  }

  function KernelSection(kernel: Bytes): Section {
    Section(KERNEL_SECTION, 1, 0, 0, 0, 0, [], kernel)
  }

  lemma SectionAppended(f: Format, before: Bytes, at: nat, s: Section, start: Bytes, stale: Bytes, sections: seq<Section>)
    requires FormatOk(f) && Written(f, before, at, start, stale, sections)
    ensures at <= |before|
    ensures Written(f, WriteAt(before, at, SectionBytes(f, s)), at + SECTION_SIZE + |s.payload|, start, stale, sections + [s])
  {
    var body, b := Body(f, sections), SectionBytes(f, s);
    assert Body(f, sections + [s]) == body + b by { BodySnoc(f, sections, s); }
    Regroup(start, body, b);
    WriteNext(stale, start + body, b);
  }

  method AppendSection(f: Format, before: Bytes, at: nat, s: Section, ghost start: Bytes, ghost stale: Bytes, ghost sections: seq<Section>)
    returns (file: Bytes, total: nat)
    requires FormatOk(f) && Written(f, before, at, start, stale, sections)
    ensures Written(f, file, total, start, stale, sections + [s])
  {
    SectionAppended(f, before, at, s, start, stale, sections);
    file := WriteAt(before, at, SectionBytes(f, s));
    total := at + SECTION_SIZE + |s.payload|;
  }

  // ---- Reading ------------------------------------------------------------

  /** A kernel snapshot. */
  datatype Snapshot = Snapshot(clock: nat, cpus: nat, frequency: nat, written: nat, overwritten: nat, records: seq<seq<nat>>)

  datatype Parsed =
    | KernelSnapshot(clock: nat, snapshot: Snapshot)
    | ProducerRecords(clock: nat, id: nat, category: nat, tid: nat, count: nat, name: Bytes, records: seq<seq<nat>>)
    | Other(kind: nat, clock: nat, size: nat)

  /** Structures read one after the other while there are bytes for another, at most `limit` of them. */
  function Structures(l: Layout, b: Bytes, limit: nat): seq<seq<nat>>
    decreases limit
  {
    if limit == 0 || |b| < Size(l) then [] else [Unpack(l, b)] + Structures(l, b[Size(l)..], limit - 1)
  }

  function ParseSnapshot(f: Format, b: Bytes): Option<Snapshot>
    requires FormatOk(f)
  {
    if |b| < 48 then None
    else
      var h := Unpack(f.snapshot, b);
      if h[0] != SNAPSHOT_MAGIC || h[5] != 48 then None
      else Some(Snapshot(h[3], h[4], h[7], h[8], h[9], Structures(f.kernelRecord, Rest(b, h[2]), h[6])))
  }

  /** The bytes before the first NUL. */
  function BeforeNul(b: Bytes): Bytes {
    if b == [] || b[0] == 0 then [] else [b[0]] + BeforeNul(b[1..])
  }

  function FirstFields(records: seq<seq<nat>>): seq<seq<nat>> {
    seq(|records|, i requires 0 <= i < |records| => Take(records[i], 6))
  }

  function Min(a: nat, b: nat): nat {
    if a < b then a else b
  }

  function Take<T>(s: seq<T>, n: nat): seq<T> {
    if n <= |s| then s[..n] else s
  }

  /** One section, by its header values, its name field and its payload; a broken snapshot is an error. */
  function ParseOne(f: Format, h: seq<nat>, name: Bytes, payload: Bytes): Option<Parsed>
    requires FormatOk(f) && |h| == 7
  {
    if h[0] == KERNEL_SECTION then
      var snapshot := ParseSnapshot(f, payload);
      if snapshot.None? then None else Some(KernelSnapshot(h[2], snapshot.value))
    else if h[0] == PRODUCER_SECTION then
      var records := FirstFields(Structures(f.producer.record, payload, |payload|));
      Some(ProducerRecords(h[2], h[3], h[4], h[5], Min(h[6], |records|), BeforeNul(name), Take(records, h[6])))
    else Some(Other(h[0], h[2], |payload|))
  }

  /** The section at the front, and its size; `None` where it is cut off or broken. */
  function FirstSection(f: Format, b: Bytes): (r: Option<(Parsed, nat)>)
    requires FormatOk(f)
    ensures r.Some? ==> SECTION_SIZE <= r.value.1 <= |b|
  {
    if |b| < SECTION_SIZE then None
    else
      var h := Unpack(f.section, b);
      if h[1] < SECTION_SIZE || h[1] > |b| then None
      else
        var one := ParseOne(f, h, b[SECTION_SIZE - NAME_SIZE..SECTION_SIZE], b[SECTION_SIZE..h[1]]);
        if one.None? then None else Some((one.value, h[1]))
  }

  type Parser = Bytes -> Option<(Parsed, nat)>

  function SectionParser(f: Format): Parser {
    b => if FormatOk(f) then FirstSection(f, b) else None
  }

  /** `n` items one after the other. */
  function Repeat(parse: Parser, b: Bytes, n: nat): Option<seq<Parsed>>
    decreases n
  {
    if n == 0 then Some([])
    else
      var first := parse(b);
      if first.None? || first.value.1 > |b| then None else Prepend([first.value.0], Repeat(parse, b[first.value.1..], n - 1))
  }

  function ParseSections(f: Format, b: Bytes, n: nat): Option<seq<Parsed>> {
    Repeat(SectionParser(f), b, n)
  }

  function Prepend(found: seq<Parsed>, others: Option<seq<Parsed>>): Option<seq<Parsed>> {
    if others.None? then None else Some(found + others.value)
  }

  function ParseExport(f: Format, data: Bytes): Option<seq<Parsed>>
    requires FormatOk(f)
  {
    if |data| < HEADER_SIZE then None
    else
      var h := Unpack(f.file, data);
      if h[0] != MAGIC then None else ParseSections(f, Rest(data, h[2]), h[3])
  }

  /** The same, with a running offset. */
  method ReadExport(f: Format, data: Bytes) returns (sections: Option<seq<Parsed>>)
    requires FormatOk(f)
    ensures sections == ParseExport(f, data)
  {
    if |data| < HEADER_SIZE { return None; }
    var header := Unpack(f.file, data);
    if header[0] != MAGIC { return None; }
    sections := ReadRepeated(SectionParser(f), data, header[2], header[3]);
  }

  method ReadRepeated(parse: Parser, data: Bytes, start: nat, count: nat) returns (items: Option<seq<Parsed>>)
    ensures items == Repeat(parse, Rest(data, start), count)
  {
    var offset: nat, left: nat := start, count;
    var found: seq<Parsed> := [];
    PrependNothing(Repeat(parse, Rest(data, start), count));
    while left > 0
      invariant Repeat(parse, Rest(data, start), count) == Prepend(found, Repeat(parse, Rest(data, offset), left))
    {
      var first := parse(Rest(data, offset));
      if first.None? || first.value.1 > |Rest(data, offset)| { return None; }
      var (one, size) := first.value;
      RepeatStep(parse, data, offset, left, found);
      found := found + [one];
      offset := offset + size;
      left := left - 1;
    }
    assert found + [] == found;
    items := Some(found);
  }

  lemma RepeatStep(parse: Parser, data: Bytes, offset: nat, left: nat, found: seq<Parsed>)
    requires left > 0
    ensures var first := parse(Rest(data, offset));
      first.Some? && first.value.1 <= |Rest(data, offset)| ==>
        Prepend(found, Repeat(parse, Rest(data, offset), left))
          == Prepend(found + [first.value.0], Repeat(parse, Rest(data, offset + first.value.1), left - 1))
  {
    var first := parse(Rest(data, offset));
    if first.Some? && first.value.1 <= |Rest(data, offset)| {
      assert Rest(data, offset + first.value.1) == Rest(data, offset)[first.value.1..];
      PrependTwice(found, first.value.0, Repeat(parse, Rest(data, offset + first.value.1), left - 1));
    }
  }

  lemma PrependNothing(others: Option<seq<Parsed>>)
    ensures Prepend([], others) == others
  {
    assert others.Some? ==> [] + others.value == others.value;
  }

  lemma PrependTwice(found: seq<Parsed>, one: Parsed, others: Option<seq<Parsed>>)
    ensures Prepend(found, Prepend([one], others)) == Prepend(found + [one], others)
  {
    if others.Some? { Regroup(found, [one], others.value); }
  }

  // ---- What was written is read back --------------------------------------

  function PackEach(l: Layout, items: seq<seq<nat>>): (b: seq<Bytes>)
    requires forall i :: 0 <= i < |items| ==> |items[i]| == |l|
    ensures |b| == |items| && forall i :: 0 <= i < |b| ==> b[i] == Pack(l, items[i])
  {
    seq(|items|, i requires 0 <= i < |items| => Pack(l, items[i]))
  }

  lemma StructureFirst(l: Layout, item: seq<nat>, rest: Bytes, limit: nat)
    requires Size(l) > 0 && |item| == |l| && Fits(l, item) && limit > 0
    ensures Structures(l, Pack(l, item) + rest, limit) == [item] + Structures(l, rest, limit - 1)
  {
    Cut(Pack(l, item), rest);
    UnpackPack(l, item, rest);
  }

  lemma {:induction false} StructuresOfCat(l: Layout, items: seq<seq<nat>>, limit: nat)
    requires Size(l) > 0 && (forall i :: 0 <= i < |items| ==> |items[i]| == |l| && Fits(l, items[i])) && limit >= |items|
    ensures Structures(l, Cat(PackEach(l, items)), limit) == items
    decreases |items|
  {
    if items != [] {
      var tail := PackEach(l, items[1..]);
      assert PackEach(l, items)[1..] == tail;
      StructureFirst(l, items[0], Cat(tail), limit);
      StructuresOfCat(l, items[1..], limit - 1);
    }
  }

  lemma {:induction false} CatIsLong(l: Layout, items: seq<seq<nat>>)
    requires Size(l) > 0 && forall i :: 0 <= i < |items| ==> |items[i]| == |l|
    ensures |Cat(PackEach(l, items))| >= |items|
    decreases |items|
  {
    if items != [] {
      assert PackEach(l, items)[1..] == PackEach(l, items[1..]);
      CatIsLong(l, items[1..]);
    }
  }

  function SnapshotValues(s: Snapshot): (v: seq<nat>)
    ensures |v| == 10
  {
    [SNAPSHOT_MAGIC, 1, 48, s.clock, s.cpus, 48, |s.records|, s.frequency, s.written, s.overwritten]
  }

  function SnapshotBytes(f: Format, s: Snapshot): Bytes
    requires FormatOk(f) && forall i :: 0 <= i < |s.records| ==> |s.records[i]| == 9
  {
    Pack(f.snapshot, SnapshotValues(s)) + Cat(PackEach(f.kernelRecord, s.records))
  }

  lemma SnapshotRoundTrip(f: Format, s: Snapshot)
    requires FormatOk(f) && Fits(f.snapshot, SnapshotValues(s)) && forall i :: 0 <= i < |s.records| ==> |s.records[i]| == 9 && Fits(f.kernelRecord, s.records[i])
    ensures ParseSnapshot(f, SnapshotBytes(f, s)) == Some(s)
  {
    var body := Cat(PackEach(f.kernelRecord, s.records));
    UnpackPack(f.snapshot, SnapshotValues(s), body);
    Cut(Pack(f.snapshot, SnapshotValues(s)), body);
    StructuresOfCat(f.kernelRecord, s.records, |s.records|);
  }

  /** What the reader makes of one section. */
  function ReadBack(f: Format, s: Section): Option<Parsed>
    requires FormatOk(f)
  {
    ParseOne(f, SectionValues(s), NameField(s.name), s.payload)
  }

  function ReadBackAll(f: Format, sections: seq<Section>): Option<seq<Parsed>>
    requires FormatOk(f)
  {
    if sections == [] then Some([])
    else
      var one := ReadBack(f, sections[0]);
      if one.None? then None else Prepend([one.value], ReadBackAll(f, sections[1..]))
  }

  lemma SectionSplits(f: Format, s: Section, rest: Bytes)
    requires FormatOk(f) && Fits(f.section, SectionValues(s))
    ensures var b := SectionBytes(f, s) + rest;
      && Unpack(f.section, b) == SectionValues(s) && b[SECTION_SIZE - NAME_SIZE..SECTION_SIZE] == NameField(s.name)
      && b[SECTION_SIZE..SECTION_SIZE + |s.payload|] == s.payload && b[SECTION_SIZE + |s.payload|..] == rest
  {
    var h, n := Pack(f.section, SectionValues(s)), NameField(s.name);
    Pieces(h, n, s.payload, rest);
    UnpackPack(f.section, SectionValues(s), n + s.payload + rest);
  }

  lemma Pieces(h: Bytes, n: Bytes, p: Bytes, rest: Bytes)
    ensures var b := (h + n + p) + rest; var k := |h| + |n|;
      && b == h + (n + p + rest) && b[|h|..k] == n && b[k..k + |p|] == p && b[k + |p|..] == rest
  {
  }

  lemma {:induction false} SectionsRoundTrip(f: Format, sections: seq<Section>, rest: Bytes)
    requires FormatOk(f) && forall i :: 0 <= i < |sections| ==> Fits(f.section, SectionValues(sections[i]))
    ensures ParseSections(f, Body(f, sections) + rest, |sections|) == ReadBackAll(f, sections)
    decreases |sections|
  {
    if sections != [] {
      var first, tail := SectionBytes(f, sections[0]), Body(f, sections[1..]);
      assert Blocks(f, sections)[1..] == Blocks(f, sections[1..]);
      Regroup(first, tail, rest);
      SectionSplits(f, sections[0], tail + rest);
      SectionsRoundTrip(f, sections[1..], rest);
    }
  }

  function HeaderValues(sections: nat, total: nat): (v: seq<nat>)
    ensures |v| == 6
  {
    [MAGIC, 1, HEADER_SIZE, sections, 0, total]
  }

  lemma HeaderParses(f: Format, sections: nat, total: nat, rest: Bytes)
    requires FormatOk(f) && Fits(f.file, HeaderValues(sections, total))
    ensures ParseExport(f, HeaderBytes(f, sections, total) + rest) == ParseSections(f, rest, sections)
  {
    UnpackPack(f.file, HeaderValues(sections, total), rest);
    Cut(HeaderBytes(f, sections, total), rest);
  }

  /** Reading an export gives back its sections, whatever bytes of an older file follow. */
  lemma ExportRoundTrip(f: Format, sections: seq<Section>, stale: Bytes)
    requires FormatOk(f) && (forall i :: 0 <= i < |sections| ==> Fits(f.section, SectionValues(sections[i])))
    requires Fits(f.file, HeaderValues(|sections|, |ExportBytes(f, sections)|))
    ensures ParseExport(f, ExportBytes(f, sections) + stale) == ReadBackAll(f, sections)
  {
    ExportParses(f, sections, stale);
    SectionsRoundTrip(f, sections, stale);
  }

  lemma ExportParses(f: Format, sections: seq<Section>, stale: Bytes)
    requires FormatOk(f) && Fits(f.file, HeaderValues(|sections|, |ExportBytes(f, sections)|))
    ensures ParseExport(f, ExportBytes(f, sections) + stale) == ParseSections(f, Body(f, sections) + stale, |sections|)
  {
    PastHeader(f, |sections|, Body(f, sections), stale);
  }

  lemma PastHeader(f: Format, n: nat, body: Bytes, stale: Bytes)
    requires FormatOk(f) && Fits(f.file, HeaderValues(n, HEADER_SIZE + |body|))
    ensures ParseExport(f, File(f, n, body) + stale) == ParseSections(f, body + stale, n)
  {
    Regroup(HeaderBytes(f, n, HEADER_SIZE + |body|), body, stale);
    HeaderParses(f, n, HEADER_SIZE + |body|, body + stale);
  }

  lemma LoadedSection(f: Format, e: Entry, who: Producer.Identity, records: seq<seq<nat>>)
    requires FormatOk(f) && records != [] && forall i :: 0 <= i < |records| ==> |records[i]| == 7
    requires e.used && 0 < e.id <= PRODUCER_LIMIT && e.file.Some?
    requires Producer.Recorded(f.producer, e.file.value, who, PackEach(f.producer.record, records))
    ensures var kept := Producer.Kept(|records|);
      SectionOf(f, e) == Some(Section(PRODUCER_SECTION, 2, e.id, e.category, e.tid, kept, e.name, Cat(PackEach(f.producer.record, records[|records| - kept..]))))
  {
    var l, kept := f.producer.record, Producer.Kept(|records|);
    Producer.LoadIsLast(f.producer, e.file.value, who, PackEach(l, records));
    assert PackEach(l, records)[|records| - kept..] == PackEach(l, records[|records| - kept..]);
  }

  lemma RecordsReadBack(f: Format, s: Section, records: seq<seq<nat>>)
    requires FormatOk(f) && (forall i :: 0 <= i < |records| ==> |records[i]| == 7 && Fits(f.producer.record, records[i]))
    requires s.kind == PRODUCER_SECTION && s.count == |records| && s.payload == Cat(PackEach(f.producer.record, records))
    ensures ReadBack(f, s) == Some(ProducerRecords(s.clock, s.id, s.category, s.tid, |records|, BeforeNul(NameField(s.name)), FirstFields(records)))
  {
    CatIsLong(f.producer.record, records);
    StructuresOfCat(f.producer.record, records, |s.payload|);
    assert Take(FirstFields(records), |records|) == FirstFields(records);
  }

  /** The section of a producer reads back as its last records, at most 101, in the order they were written. */
  lemma ProducerRoundTrip(f: Format, e: Entry, who: Producer.Identity, records: seq<seq<nat>>)
    requires FormatOk(f) && records != [] && (forall i :: 0 <= i < |records| ==> |records[i]| == 7 && Fits(f.producer.record, records[i]))
    requires e.used && 0 < e.id <= PRODUCER_LIMIT && e.file.Some?
    requires Producer.Recorded(f.producer, e.file.value, who, PackEach(f.producer.record, records))
    ensures var kept := Producer.Kept(|records|);
      && SectionOf(f, e).Some?
      && ReadBack(f, SectionOf(f, e).value) ==
         Some(ProducerRecords(2, e.id, e.category, e.tid, kept, BeforeNul(NameField(e.name)), FirstFields(records[|records| - kept..])))
  {
    LoadedSection(f, e, who, records);
    RecordsReadBack(f, SectionOf(f, e).value, records[|records| - Producer.Kept(|records|)..]);
  }

  lemma {:induction false} StopsAtNul(name: Bytes, rest: Bytes)
    requires (forall i :: 0 <= i < |name| ==> name[i] != 0) && rest != [] && rest[0] == 0
    ensures BeforeNul(name + rest) == name
    decreases |name|
  {
    if name == [] {
      assert name + rest == rest;
    } else {
      assert (name + rest)[1..] == name[1..] + rest;
      StopsAtNul(name[1..], rest);
    }
  }

  /** A name that fits its field is read back as it was. */
  lemma NameRoundTrip(name: Bytes)
    requires |name| < NAME_SIZE && forall i :: 0 <= i < |name| ==> name[i] != 0
    ensures BeforeNul(NameField(name)) == name
  {
    StopsAtNul(name, seq(NAME_SIZE - |name|, _ => 0));
  }

  // ---- The whole way ------------------------------------------------------

  const SNAPSHOT_LIMIT := 0x20_0000

  /** What is read of a producer with these records: the last ones, at most 101. */
  function Contribution(e: Entry, log: seq<seq<nat>>): seq<Parsed> {
    if Skipped(e) || log == [] then []
    else
      var kept := Producer.Kept(|log|);
      [ProducerRecords(2, e.id, e.category, e.tid, kept, e.name, FirstFields(log[|log| - kept..]))]
  }

  function Contributions(entries: seq<Entry>, logs: seq<seq<seq<nat>>>): seq<Parsed>
    requires |logs| == |entries|
  {
    if entries == [] then []
    else
      var n := |entries| - 1;
      Contributions(entries[..n], logs[..n]) + Contribution(entries[n], logs[n])
  }

  /** The entry's file is what a producer leaves after these records, and its name ends inside its field. */
  ghost predicate Backed(f: Format, e: Entry, who: Producer.Identity, log: seq<seq<nat>>) {
    && |e.name| < NAME_SIZE && (forall i :: 0 <= i < |e.name| ==> e.name[i] != 0)
    && e.file.Some? && |f.producer.record| == 7
    && (forall i :: 0 <= i < |log| ==> |log[i]| == 7 && Fits(f.producer.record, log[i]))
    && Producer.Recorded(f.producer, e.file.value, who, PackEach(f.producer.record, log))
  }

  /** The header of the section can hold its values. */
  predicate Small(s: Section) {
    && s.kind < 0x1_0000_0000 && SECTION_SIZE + |s.payload| < 0x1_0000_0000 && s.clock < 0x1_0000_0000 && s.id < 0x1_0000_0000
    && s.category < 0x1_0000_0000 && s.tid < 0x1_0000_0000 && s.count < 0x1_0000_0000
  }

  predicate AllSmall(sections: seq<Section>) {
    forall i :: 0 <= i < |sections| ==> Small(sections[i])
  }

  lemma SmallFits(s: Section)
    requires Small(s)
    ensures Fits(FORMAT.section, SectionValues(s))
  {
    Widths();
    FitsEach(FORMAT.section, SectionValues(s));
  }

  lemma HeaderFits(n: U32, total: U64)
    ensures Fits(FORMAT.file, HeaderValues(n, total))
  {
    Widths();
    FitsEach(FORMAT.file, HeaderValues(n, total));
  }

  /** The layouts hold every header that is written. */
  ghost predicate Wide(f: Format) {
    && FormatOk(f) && Producer.Wide(f.producer) && (forall s :: Small(s) ==> Fits(f.section, SectionValues(s)))
    && (forall n: U32, total: U64 :: Fits(f.file, HeaderValues(n, total)))
  }

  lemma FormatIsWide()
    ensures Wide(FORMAT)
  {
    FormatFits();
    Producer.FormatIsWide();
    forall s | Small(s) ensures Fits(FORMAT.section, SectionValues(s)) { SmallFits(s); }
    forall n: U32, total: U64 ensures Fits(FORMAT.file, HeaderValues(n, total)) { HeaderFits(n, total); }
  }

  lemma BodyIsSmall(f: Format, sections: seq<Section>)
    requires FormatOk(f) && AllSmall(sections)
    ensures |Body(f, sections)| <= 0x1_0000_0000 * |sections|
  {
    CatIsSmall(Blocks(f, sections));
  }

  lemma {:induction false} CatOfRecords(l: Layout, items: seq<seq<nat>>)
    requires Size(l) == Producer.RECORD_SIZE && forall i :: 0 <= i < |items| ==> |items[i]| == |l|
    ensures |Cat(PackEach(l, items))| == Producer.RECORD_SIZE * |items|
    decreases |items|
  {
    if items != [] {
      assert PackEach(l, items)[1..] == PackEach(l, items[1..]);
      CatOfRecords(l, items[1..]);
    }
  }

  /** One entry: no section where nothing is to be read, and otherwise one that reads back as its records. */
  lemma EntryReadsBack(f: Format, e: Entry, who: Producer.Identity, log: seq<seq<nat>>)
    requires FormatOk(f) && (Skipped(e) || Backed(f, e, who, log))
    ensures SectionOf(f, e).None? ==> Contribution(e, log) == []
    ensures var s := SectionOf(f, e);
      s.Some? ==> Small(s.value) && ReadBack(f, s.value).Some? && Contribution(e, log) == [ReadBack(f, s.value).value]
  {
    if !Skipped(e) {
      if log == [] {
        Producer.LoadIsLast(f.producer, e.file.value, who, PackEach(f.producer.record, log));
      } else {
        LoadedSection(f, e, who, log);
        ProducerRoundTrip(f, e, who, log);
        CatOfRecords(f.producer.record, log[|log| - Producer.Kept(|log|)..]);
        NameRoundTrip(e.name);
      }
    }
  }

  lemma OneReadsBack(f: Format, s: Section)
    requires FormatOk(f) && ReadBack(f, s).Some?
    ensures ReadBackAll(f, [s]) == Some([ReadBack(f, s).value])
  {
    assert [s][1..] == [] && [ReadBack(f, s).value] + [] == [ReadBack(f, s).value];
    assert ReadBackAll(f, [s]) == Prepend([ReadBack(f, s).value], ReadBackAll(f, []));
  }

  lemma {:induction false} ReadBackSnoc(f: Format, sections: seq<Section>, s: Section)
    requires FormatOk(f) && ReadBackAll(f, sections).Some? && ReadBack(f, s).Some?
    ensures ReadBackAll(f, sections + [s]) == Some(ReadBackAll(f, sections).value + [ReadBack(f, s).value])
    decreases |sections|
  {
    if sections == [] {
      OneReadsBack(f, s);
      assert [] + [s] == [s] && [] + [ReadBack(f, s).value] == [ReadBack(f, s).value];
    } else {
      assert (sections + [s])[1..] == sections[1..] + [s];
      ReadBackSnoc(f, sections[1..], s);
      Regroup([ReadBack(f, sections[0]).value], ReadBackAll(f, sections[1..]).value, [ReadBack(f, s).value]);
    }
  }

  /** One more entry behind sections that read back. */
  lemma EntryAppends(f: Format, sections: seq<Section>, e: Entry, who: Producer.Identity, log: seq<seq<nat>>)
    requires FormatOk(f) && (Skipped(e) || Backed(f, e, who, log)) && ReadBackAll(f, sections).Some? && AllSmall(sections)
    ensures var more := sections + OptionSeq(SectionOf(f, e));
      ReadBackAll(f, more) == Some(ReadBackAll(f, sections).value + Contribution(e, log)) && AllSmall(more)
  {
    var s := SectionOf(f, e);
    EntryReadsBack(f, e, who, log);
    if s.Some? {
      ReadBackSnoc(f, sections, s.value);
    } else {
      assert sections + [] == sections && ReadBackAll(f, sections).value + [] == ReadBackAll(f, sections).value;
    }
  }

  /** Every entry is passed over or is backed by a producer's records. */
  ghost predicate AllBacked(f: Format, entries: seq<Entry>, whos: seq<Producer.Identity>, logs: seq<seq<seq<nat>>>) {
    |logs| == |whos| == |entries| && forall k :: 0 <= k < |entries| ==> Skipped(entries[k]) || Backed(f, entries[k], whos[k], logs[k])
  }

  /** The whole table, behind sections that read back. */
  lemma {:induction false} TableReadsBack(f: Format, first: seq<Section>, entries: seq<Entry>, whos: seq<Producer.Identity>, logs: seq<seq<seq<nat>>>)
    requires FormatOk(f) && ReadBackAll(f, first).Some? && AllSmall(first) && AllBacked(f, entries, whos, logs)
    ensures ReadBackAll(f, first + SectionsOf(f, entries)) == Some(ReadBackAll(f, first).value + Contributions(entries, logs))
    ensures AllSmall(first + SectionsOf(f, entries)) && |SectionsOf(f, entries)| <= |entries|
    decreases |entries|
  {
    if entries == [] {
      assert first + [] == first && ReadBackAll(f, first).value + [] == ReadBackAll(f, first).value;
    } else {
      var n := |entries| - 1;
      TableReadsBack(f, first, entries[..n], whos[..n], logs[..n]);
      EntryAppends(f, first + SectionsOf(f, entries[..n]), entries[n], whos[n], logs[n]);
      Regroup(ReadBackAll(f, first).value, Contributions(entries[..n], logs[..n]), Contribution(entries[n], logs[n]));
      Regroup(first, SectionsOf(f, entries[..n]), OptionSeq(SectionOf(f, entries[n])));
    }
  }

  /** A kernel snapshot as the kernel hands it out. */
  predicate Takes(f: Format, s: Snapshot) {
    && FormatOk(f) && Fits(f.snapshot, SnapshotValues(s))
    && (forall i :: 0 <= i < |s.records| ==> |s.records[i]| == 9 && Fits(f.kernelRecord, s.records[i]))
    && |SnapshotBytes(f, s)| <= SNAPSHOT_LIMIT
  }

  lemma KernelReadsBack(f: Format, s: Snapshot)
    requires Takes(f, s)
    ensures ReadBackAll(f, [KernelSection(SnapshotBytes(f, s))]) == Some([KernelSnapshot(1, s)])
    ensures AllSmall([KernelSection(SnapshotBytes(f, s))])
  {
    var bytes := SnapshotBytes(f, s);
    assert ParseSnapshot(f, bytes) == Some(s) by { SnapshotRoundTrip(f, s); }
    SnapshotReadsBack(f, bytes, s);
    OneReadsBack(f, KernelSection(bytes));
  }

  lemma SnapshotReadsBack(f: Format, bytes: Bytes, s: Snapshot)
    requires FormatOk(f) && ParseSnapshot(f, bytes) == Some(s)
    ensures ReadBack(f, KernelSection(bytes)) == Some(KernelSnapshot(1, s))
  {
  }

  /** The count and the size in the header of a file. */
  function HeaderOf(f: Format, file: Bytes): (nat, nat)
    requires FormatOk(f) && |file| >= HEADER_SIZE
  {
    var h := Unpack(f.file, file);
    (h[3], h[5])
  }

  /** The header of a file of small sections. */
  lemma HeaderReadsBack(f: Format, n: U32, body: Bytes, rest: Bytes)
    requires Wide(f) && HEADER_SIZE + |body| < 0x1_0000_0000_0000_0000
    ensures HeaderOf(f, File(f, n, body) + rest) == (n, HEADER_SIZE + |body|)
  {
    Regroup(HeaderBytes(f, n, HEADER_SIZE + |body|), body, rest);
    UnpackPack(f.file, HeaderValues(n, HEADER_SIZE + |body|), body + rest);
  }

  /** An export of small sections, whatever follows it. */
  lemma SmallExport(f: Format, sections: seq<Section>, rest: Bytes)
    requires Wide(f) && AllSmall(sections) && |sections| <= PRODUCER_LIMIT + 1
    ensures ParseExport(f, ExportBytes(f, sections) + rest) == ReadBackAll(f, sections)
    ensures HeaderOf(f, ExportBytes(f, sections) + rest) == (|sections|, |ExportBytes(f, sections)|)
  {
    BodyIsSmall(f, sections);
    ExportRoundTrip(f, sections, rest);
    HeaderReadsBack(f, |sections|, Body(f, sections), rest);
  }

  /** What the reader gets of the kernel's snapshot and these producers. */
  function Everything(s: Snapshot, entries: seq<Entry>, logs: seq<seq<seq<nat>>>): seq<Parsed>
    requires |logs| == |entries|
  {
    [KernelSnapshot(1, s)] + Contributions(entries, logs)
  }

  function AllSections(f: Format, s: Snapshot, entries: seq<Entry>): seq<Section>
    requires Takes(f, s)
  {
    [KernelSection(SnapshotBytes(f, s))] + SectionsOf(f, entries)
  }

  /** From the producers' files to what the reader gets, whatever the export file held before. */
  lemma EverythingIsRead(f: Format, s: Snapshot, entries: seq<Entry>, whos: seq<Producer.Identity>, logs: seq<seq<seq<nat>>>, rest: Bytes)
    requires Wide(f) && Takes(f, s) && |entries| <= PRODUCER_LIMIT && AllBacked(f, entries, whos, logs)
    ensures var b := ExportBytes(f, AllSections(f, s, entries));
      && ParseExport(f, b + rest) == Some(Everything(s, entries, logs))
      && HeaderOf(f, b + rest) == (|Everything(s, entries, logs)|, |b|)
  {
    KernelReadsBack(f, s);
    TableReadsBack(f, [KernelSection(SnapshotBytes(f, s))], entries, whos, logs);
    SmallExport(f, AllSections(f, s, entries), rest);
    AsMany(f, AllSections(f, s, entries));
  }

  lemma {:induction false} AsMany(f: Format, sections: seq<Section>)
    requires FormatOk(f) && ReadBackAll(f, sections).Some?
    ensures |ReadBackAll(f, sections).value| == |sections|
    decreases |sections|
  {
    if sections != [] { AsMany(f, sections[1..]); }
  }

  /** The entry is passed over, or its file is the one `p` has written, fewer than 2^32 records long. */
  ghost predicate KeptBy(f: Format, e: Entry, p: Producer.Producer)
    reads p
  {
    Skipped(e) || (
      && |e.name| < NAME_SIZE && (forall i :: 0 <= i < |e.name| ==> e.name[i] != 0)
      && e.file == Some(p.file) && p.Valid() && p.f == f.producer && |p.records| < 0x1_0000_0000)
  }

  lemma KeptIsBacked(f: Format, e: Entry, p: Producer.Producer)
    requires Wide(f) && KeptBy(f, e, p) && !Skipped(e)
    ensures Backed(f, e, p.who, p.records)
  {
    Producer.FileIsRecorded(p);
    assert p.blocks == PackEach(f.producer.record, p.records);
  }

  lemma TableIsBacked(f: Format, entries: seq<Entry>, producers: seq<Producer.Producer>, logs: seq<seq<seq<nat>>>) returns (whos: seq<Producer.Identity>)
    requires Wide(f) && |logs| == |producers| == |entries|
    requires forall k :: 0 <= k < |entries| ==> KeptBy(f, entries[k], producers[k]) && logs[k] == producers[k].records
    ensures AllBacked(f, entries, whos, logs)
  {
    whos := seq(|producers|, k requires 0 <= k < |producers| => producers[k].who);
    forall k | 0 <= k < |entries| && !Skipped(entries[k]) ensures Backed(f, entries[k], whos[k], logs[k]) {
      KeptIsBacked(f, entries[k], producers[k]);
    }
  }

  /**
   * The whole way from the producers to the reader: it gets the kernel's snapshot and then, for each producer that has
   * records, the last ones; the header tells their number and the size of the file.
   */
  method ExportAndRead(f: Format, stale: Bytes, s: Snapshot, entries: seq<Entry>,
                       ghost producers: seq<Producer.Producer>, ghost logs: seq<seq<seq<nat>>>)
    returns (file: Bytes, total: nat, sections: Option<seq<Parsed>>)
    requires Wide(f) && Takes(f, s) && |logs| == |producers| == |entries| <= PRODUCER_LIMIT
    requires forall k :: 0 <= k < |entries| ==> KeptBy(f, entries[k], producers[k]) && logs[k] == producers[k].records
    ensures sections == Some(Everything(s, entries, logs))
    ensures |file| >= total >= HEADER_SIZE && HeaderOf(f, file) == (|sections.value|, total) && file[total..] == Rest(stale, total)
  {
    ghost var whos := TableIsBacked(f, entries, producers, logs);
    file, total := WriteExport(f, stale, SnapshotBytes(f, s), entries);
    EverythingIsRead(f, s, entries, whos, logs, Rest(stale, total));
    sections := ReadExport(f, file);
  }
}
