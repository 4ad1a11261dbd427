/** A process that writes trace records into a ring in a file, and the reader that unrolls the ring. */
module TraceProducer {
  import opened Options
  import opened Packing

  const MAGIC := 0x54525044
  const VERSION := 1
  const HEADER_SIZE := 48
  const RECORD_SIZE := 40
  const BUFFER_BYTES := 4096
  const SLOTS := 101              // records that fit behind the header

  /** How the header and the records are laid out. */
  datatype Format = Format(header: Layout, record: Layout)

  predicate FormatOk(f: Format) {
    |f.header| == 12 && Size(f.header) == HEADER_SIZE && |f.record| == 7 && Size(f.record) == RECORD_SIZE
  }

  /**
   * Header: magic, version, reserved, producer, category, session, write offset, record count, dropped, wrapped, padding,
   * next number. Record: timestamp, number, two arguments, producer, event, reserved.
   */
  const FORMAT := Format([4, 2, 2, 4, 4, 4, 4, 4, 4, 4, 4, 8], [8, 8, 8, 8, 4, 2, 2])

  lemma FormatFits()
    ensures FormatOk(FORMAT)
  {
    HeaderSize();
    assert Size([8, 8, 8, 8, 4, 2, 2]) == 40;
  }

  lemma HeaderSize()
    ensures Size([4, 2, 2, 4, 4, 4, 4, 4, 4, 4, 4, 8]) == 48
  {
    assert Size([4, 4, 4, 4, 4, 8]) == 28;
  }

  /** Who the producer is. */
  datatype Identity = Identity(id: U32, category: U32, session: U32)

  /** What the file header says about the ring. */
  datatype Ring = Ring(offset: nat, count: nat, dropped: nat, wrapped: nat)

  function HeaderValues(who: Identity, r: Ring): (v: seq<nat>)
    ensures |v| == 12
  {
    [MAGIC, VERSION, 0, who.id, who.category, who.session, r.offset, r.count, r.dropped, r.wrapped, 0, r.count + 1]
  }

  function HeaderBytes(f: Format, who: Identity, r: Ring): (b: Bytes)
    requires FormatOk(f)
    ensures |b| == HEADER_SIZE
  {
    Pack(f.header, HeaderValues(who, r))
  }

  function RecordBytes(f: Format, values: seq<nat>): (b: Bytes)
    requires FormatOk(f) && |values| == 7
    ensures |b| == RECORD_SIZE
  {
    Pack(f.record, values)
  }

  /** Record `i` of a producer: its number, the producer and values of the caller's types. */
  predicate IsRecord(values: seq<nat>, i: nat, id: nat) {
    && |values| == 7 && values[1] == i + 1 && values[4] == id && values[6] == 0
    && values[0] < 0x1_0000_0000_0000_0000 && values[5] < 0x1_0000
    && values[2] < 0x1_0000_0000_0000_0000 && values[3] < 0x1_0000_0000_0000_0000
  }

  lemma RecordFits(values: seq<nat>, i: nat, id: U32)
    requires IsRecord(values, i, id) && i + 1 < 0x1_0000_0000
    ensures Fits(FORMAT.record, values)
  {
    Widths();
    FitsEach(FORMAT.record, values);
  }

  /** The ring after `n` records: full laps are counted as dropped. */
  function RingAfter(n: nat): Ring {
    if n == 0 then Ring(HEADER_SIZE, 0, 0, 0)
    else Ring(HEADER_SIZE + RECORD_SIZE * ((n - 1) % SLOTS + 1), n, (n - 1) / SLOTS, if n > SLOTS then 1 else 0)
  }

  /** Where record `i` is kept. */
  function Place(i: nat): nat {
    HEADER_SIZE + RECORD_SIZE * (i % SLOTS)
  }

  /** The number of records that are still there. */
  function Kept(n: nat): nat {
    if n < SLOTS then n else SLOTS
  }

  /** The file holds the header, and the last records in their places. */
  ghost predicate Holds(file: Bytes, header: Bytes, blocks: seq<Bytes>) {
    var n := |blocks|;
    && |header| == HEADER_SIZE && (forall i :: 0 <= i < n ==> |blocks[i]| == RECORD_SIZE)
    && |file| >= HEADER_SIZE + RECORD_SIZE * Kept(n)
    && file[..HEADER_SIZE] == header
    && forall i :: n - Kept(n) <= i < n ==> Place(i) + RECORD_SIZE <= |file| && file[Place(i)..Place(i) + RECORD_SIZE] == blocks[i]
  }

  /** What the ring's own counter of dropped records counts: laps, which is the number of lost records only for the first one. */
  lemma DroppedCountsLaps(n: nat)
    requires n > 0
    ensures RingAfter(n).dropped == n - Kept(n) <==> n <= SLOTS + 1
  {
    if n > SLOTS + 1 {
      assert (n - 1) / SLOTS <= (n - 1) / 2;
      assert n - SLOTS > (n - 1) / SLOTS by { LapsAreFewer(n); }
    }
  }

  lemma LapsAreFewer(n: nat)
    requires n > SLOTS + 1
    ensures (n - 1) / SLOTS < n - SLOTS
  {
    var q := (n - 1) / SLOTS;
    assert q * SLOTS <= n - 1;
  }

  /** The place that the writer computes for the next record. */
  lemma NextPlace(n: nat)
    ensures var r := RingAfter(n);
      Place(n) == if r.offset + RECORD_SIZE > BUFFER_BYTES then HEADER_SIZE else r.offset
    ensures n > 0 ==> (RingAfter(n).offset + RECORD_SIZE > BUFFER_BYTES <==> n % SLOTS == 0)
    ensures Place(n) + RECORD_SIZE <= BUFFER_BYTES && RingAfter(n + 1).offset == Place(n) + RECORD_SIZE
    ensures RingAfter(n + 1).dropped == RingAfter(n).dropped + (if n > 0 && n % SLOTS == 0 then 1 else 0)
    ensures RingAfter(n + 1).wrapped == if n > 0 && n % SLOTS == 0 then 1 else RingAfter(n).wrapped
  {
    if n > 0 {
      var q, k := (n - 1) / SLOTS, (n - 1) % SLOTS;
      assert n == q * SLOTS + k + 1;
      if k + 1 == SLOTS {
        Divides(q + 1, 0, n);
      } else {
        Divides(q, k + 1, n);
      }
    }
  }

  lemma Divides(q: nat, k: nat, n: nat)
    requires n == q * SLOTS + k && k < SLOTS
    ensures n / SLOTS == q && n % SLOTS == k
  {
  }

  /** Records in the ring at the same time are in different places. */
  lemma Apart(i: nat, j: nat)
    requires i < j < i + SLOTS
    ensures Place(i) + RECORD_SIZE <= Place(j) || Place(j) + RECORD_SIZE <= Place(i)
  {
    assert i % SLOTS != j % SLOTS;
  }

  /** What the two writes leave at one place. */
  lemma PlaceKept(file: Bytes, n: nat, block: Bytes, later: Bytes, i: nat)
    requires |block| == RECORD_SIZE && |later| == HEADER_SIZE && Place(n) <= |file| && n < i + SLOTS && i < n && Place(i) + RECORD_SIZE <= |file|
    ensures var e := WriteAt(WriteAt(file, Place(n), block), 0, later);
      e[Place(i)..Place(i) + RECORD_SIZE] == file[Place(i)..Place(i) + RECORD_SIZE]
  {
    Apart(i, n);
    WriteElsewhere(file, Place(n), block, Place(i), Place(i) + RECORD_SIZE);
    WriteElsewhere(WriteAt(file, Place(n), block), 0, later, Place(i), Place(i) + RECORD_SIZE);
  }

  /** One more record, then the header. */
  lemma EmitKeeps(file: Bytes, header: Bytes, blocks: seq<Bytes>, block: Bytes, later: Bytes)
    requires Holds(file, header, blocks) && |block| == RECORD_SIZE && |later| == HEADER_SIZE
    ensures Place(|blocks|) <= |file| && Holds(WriteAt(WriteAt(file, Place(|blocks|), block), 0, later), later, blocks + [block])
  {
    var n, more := |blocks|, blocks + [block];
    RoomForNext(file, header, blocks);
    var written := WriteAt(file, Place(n), block);
    var e := WriteAt(written, 0, later);
    forall i | n + 1 - Kept(n + 1) <= i < n + 1
      ensures Place(i) + RECORD_SIZE <= |e| && e[Place(i)..Place(i) + RECORD_SIZE] == more[i]
    {
      if i < n {
        assert file[Place(i)..Place(i) + RECORD_SIZE] == blocks[i];
        PlaceKept(file, n, block, later, i);
      } else {
        WriteElsewhere(written, 0, later, Place(n), Place(n) + RECORD_SIZE);
      }
    }
  }

  lemma RoomForNext(file: Bytes, header: Bytes, blocks: seq<Bytes>)
    requires Holds(file, header, blocks)
    ensures Place(|blocks|) <= |file|
  {
    var n := |blocks|;
    if n < SLOTS {
      Divides(0, n, n);
    }
  }

  class Producer {
    const f: Format
    const who: Identity
    var file: Bytes
    var offset: nat
    var dropped: nat
    var wrapped: nat
    var next: nat
    ghost var records: seq<seq<nat>>
    ghost var blocks: seq<Bytes>

    ghost predicate Valid()
      reads this
    {
      var r := RingAfter(|blocks|);
      && FormatOk(f) && Holds(file, HeaderBytes(f, who, r), blocks)
      && next == |blocks| + 1 && offset == r.offset && dropped == r.dropped && wrapped == r.wrapped
      && |records| == |blocks| && forall i :: 0 <= i < |blocks| ==> IsRecord(records[i], i, who.id) && blocks[i] == RecordBytes(f, records[i])
    }

    /** Registration writes an empty header over whatever the file holds. */
    constructor (f: Format, who: Identity, stale: Bytes)
      requires FormatOk(f)
      ensures Valid() && records == [] && this.who == who && this.f == f
    {
      this.f, this.who := f, who;
      file := WriteAt(stale, 0, HeaderBytes(f, who, RingAfter(0)));
      offset, dropped, wrapped, next := HEADER_SIZE, 0, 0, 1;
      records, blocks := [], [];
    }

    /** One record, at time `now`. */
    method Emit(event: U16, arg0: U64, arg1: U64, now: U64)
      requires Valid()
      modifies this
      ensures Valid() && records == old(records) + [[now, |old(records)| + 1, arg0, arg1, who.id, event, 0]]
    {
      var at, lost, lapped := offset, dropped, wrapped;
      if at < HEADER_SIZE || at > BUFFER_BYTES { at := HEADER_SIZE; }
      if at + RECORD_SIZE > BUFFER_BYTES {
        at, lapped, lost := HEADER_SIZE, 1, lost + 1;
      }
      NextPlace(|blocks|);
      assert at == Place(|blocks|);
      Write(at, lost, lapped, [now, next, arg0, arg1, who.id, event, 0]);
    }

    /** Writes the record at `at` and then the header. */
    method Write(at: nat, lost: nat, lapped: nat, values: seq<nat>)
      requires Valid() && IsRecord(values, |blocks|, who.id) && at == Place(|blocks|)
      requires RingAfter(|blocks| + 1) == Ring(at + RECORD_SIZE, next, lost, lapped)
      modifies this
      ensures Valid() && records == old(records) + [values]
    {
      var block := RecordBytes(f, values);
      var header := HeaderBytes(f, who, Ring(at + RECORD_SIZE, next, lost, lapped));
      EmitKeeps(file, HeaderBytes(f, who, RingAfter(|blocks|)), blocks, block, header);
      file := WriteAt(file, at, block);
      file := WriteAt(file, 0, header);
      next := next + 1;
      offset, dropped, wrapped := at + RECORD_SIZE, lost, lapped;
      records, blocks := records + [values], blocks + [block];
    }
  }

  // ---- Unrolling the ring -------------------------------------------------

  /** Records loaded from a producer's file, oldest first. */
  datatype Loaded = Loaded(bytes: Bytes, count: nat)

  function ReadAt(file: Bytes, offset: nat, size: nat): Option<Bytes> {
    if offset + size <= |file| then Some(file[offset..offset + size]) else None
  }

  /** Consecutive places hold consecutive records. */
  lemma {:induction false} PlacesInARow(file: Bytes, header: Bytes, blocks: seq<Bytes>, a: nat, i: nat, m: nat)
    requires Holds(file, header, blocks) && |blocks| - Kept(|blocks|) <= i && i + m <= |blocks|
    requires m > 0 && i % SLOTS == a && a + m <= SLOTS
    ensures ReadAt(file, HEADER_SIZE + RECORD_SIZE * a, RECORD_SIZE * m) == Some(Cat(blocks[i..i + m]))
    decreases m
  {
    var start := HEADER_SIZE + RECORD_SIZE * a;
    assert file[start..start + RECORD_SIZE] == blocks[i];
    if m == 1 {
      assert blocks[i..i + 1] == [blocks[i]];
      CatOne(blocks[i]);
    } else {
      NextSlot(i, a);
      PlacesInARow(file, header, blocks, a + 1, i + 1, m - 1);
      JoinReads(file, start, RECORD_SIZE, RECORD_SIZE * (m - 1), blocks[i], Cat(blocks[i + 1..i + m]));
      assert blocks[i..i + m] == [blocks[i]] + blocks[i + 1..i + m];
    }
  }

  lemma NextSlot(i: nat, a: nat)
    requires i % SLOTS == a && a + 1 < SLOTS
    ensures (i + 1) % SLOTS == a + 1
  {
    Divides(i / SLOTS, a + 1, i + 1);
  }

  lemma JoinReads(file: Bytes, offset: nat, a: nat, b: nat, x: Bytes, y: Bytes)
    requires ReadAt(file, offset, a) == Some(x) && ReadAt(file, offset + a, b) == Some(y)
    ensures ReadAt(file, offset, a + b) == Some(x + y)
  {
    assert file[offset..offset + (a + b)] == file[offset..offset + a] + file[offset + a..offset + a + b];
  }

  /** Before the ring has lapped, the records are in order. */
  lemma NotLapped(file: Bytes, header: Bytes, blocks: seq<Bytes>)
    requires Holds(file, header, blocks) && 0 < |blocks| <= SLOTS
    ensures RingAfter(|blocks|).offset == HEADER_SIZE + RECORD_SIZE * |blocks|
    ensures ReadAt(file, HEADER_SIZE, RECORD_SIZE * |blocks|) == Some(Cat(blocks))
  {
    var n := |blocks|;
    Divides(0, n - 1, n - 1);
    PlacesInARow(file, header, blocks, 0, 0, n);
    assert blocks[0..n] == blocks;
  }

  /** Afterwards the oldest ones begin at the write offset and the newest ones at the front. */
  lemma Lapped(file: Bytes, header: Bytes, blocks: seq<Bytes>, k: nat)
    requires Holds(file, header, blocks) && |blocks| > SLOTS && k == (|blocks| - 1) % SLOTS + 1
    ensures RingAfter(|blocks|).offset == HEADER_SIZE + RECORD_SIZE * k
    ensures k < SLOTS ==> ReadAt(file, HEADER_SIZE + RECORD_SIZE * k, RECORD_SIZE * (SLOTS - k)) == Some(Cat(blocks[|blocks| - SLOTS..|blocks| - k]))
    ensures ReadAt(file, HEADER_SIZE, RECORD_SIZE * k) == Some(Cat(blocks[|blocks| - k..]))
  {
    var n, q := |blocks|, (|blocks| - 1) / SLOTS;
    assert n == q * SLOTS + k;
    if k < SLOTS {
      Divides(q - 1, k, n - SLOTS);
      PlacesInARow(file, header, blocks, k, n - SLOTS, SLOTS - k);
      assert n - SLOTS + (SLOTS - k) == n - k;
    }
    Divides(q, 0, n - k);
    PlacesInARow(file, header, blocks, 0, n - k, k);
    assert blocks[n - k..n - k + k] == blocks[n - k..];
  }

  /** What the header of a file says, if it is one. */
  function ParseHeader(f: Format, file: Bytes): Option<Ring>
    requires FormatOk(f)
  {
    if |file| < HEADER_SIZE then None
    else
      var h := Unpack(f.header, file);
      if h[0] != MAGIC || h[1] != VERSION then None else Some(Ring(h[6], h[7], h[8], h[9]))
  }

  lemma HeaderRoundTrip(f: Format, file: Bytes, who: Identity, r: Ring)
    requires FormatOk(f) && |file| >= HEADER_SIZE && file[..HEADER_SIZE] == HeaderBytes(f, who, r) && Fits(f.header, HeaderValues(who, r))
    ensures ParseHeader(f, file) == Some(r)
  {
    UnpackPack(f.header, HeaderValues(who, r), file[HEADER_SIZE..]);
    assert file == HeaderBytes(f, who, r) + file[HEADER_SIZE..];
  }

  /** The records of a file in order: `None` if there are none or the file is not what it should be. */
  function Load(f: Format, file: Bytes): Option<Loaded>
    requires FormatOk(f)
  {
    var header := ParseHeader(f, file);
    if header.None? then None else Unrolled(file, header.value)
  }

  /** From a producer's file exactly the last records that fit are loaded. */
  lemma LoadIsLast(f: Format, file: Bytes, who: Identity, blocks: seq<Bytes>)
    requires Recorded(f, file, who, blocks)
    ensures Load(f, file) == LastRecords(blocks)
  {
    HeaderRoundTrip(f, file, who, RingAfter(|blocks|));
    UnrolledIsLast(file, HeaderBytes(f, who, RingAfter(|blocks|)), blocks);
  }

  /** The file is what a producer leaves after these records, fewer than 2^32. */
  ghost predicate Recorded(f: Format, file: Bytes, who: Identity, blocks: seq<Bytes>) {
    && FormatOk(f) && Holds(file, HeaderBytes(f, who, RingAfter(|blocks|)), blocks)
    && Fits(f.header, HeaderValues(who, RingAfter(|blocks|)))
  }

  lemma HeaderFits(who: Identity, n: U32)
    ensures Fits(FORMAT.header, HeaderValues(who, RingAfter(n)))
  {
    Widths();
    FitsEach(FORMAT.header, HeaderValues(who, RingAfter(n)));
  }

  /** The layouts hold everything that a producer writes in its first 2^32 - 1 records. */
  ghost predicate Wide(f: Format) {
    && FormatOk(f) && (forall who: Identity, n: U32 :: Fits(f.header, HeaderValues(who, RingAfter(n))))
    && (forall values, i, id: U32 :: IsRecord(values, i, id) && i + 1 < 0x1_0000_0000 ==> Fits(f.record, values))
  }

  lemma FormatIsWide()
    ensures Wide(FORMAT)
  {
    FormatFits();
    forall who: Identity, n: U32 ensures Fits(FORMAT.header, HeaderValues(who, RingAfter(n))) { HeaderFits(who, n); }
    forall values, i: nat, id: U32 | IsRecord(values, i, id) && i + 1 < 0x1_0000_0000 ensures Fits(FORMAT.record, values) {
      RecordFits(values, i, id);
    }
  }

  /** So is the file of every producer with fewer than 2^32 records, and the records fit their fields. */
  lemma FileIsRecorded(p: Producer)
    requires p.Valid() && Wide(p.f) && |p.records| < 0x1_0000_0000
    ensures Recorded(p.f, p.file, p.who, p.blocks)
    ensures forall i :: 0 <= i < |p.records| ==> Fits(p.f.record, p.records[i])
  {
  }

  function LastRecords(blocks: seq<Bytes>): Option<Loaded> {
    if blocks == [] then None else Some(Loaded(Cat(blocks[|blocks| - Kept(|blocks|)..]), Kept(|blocks|)))
  }

  function Available(r: Ring): nat {
    var a := if r.wrapped != 0 then SLOTS else if r.offset >= HEADER_SIZE then (r.offset - HEADER_SIZE) / RECORD_SIZE else 0;
    if a > r.count then r.count else a
  }

  /** The reads of the exporter: behind the header, or from the write offset and then behind the header. */
  function Unrolled(file: Bytes, r: Ring): Option<Loaded> {
    var available := Available(r);
    if available == 0 then None
    else if r.wrapped == 0 then Whole(ReadAt(file, HEADER_SIZE, RECORD_SIZE * available), available)
    else
      var fit := if r.offset <= BUFFER_BYTES then (BUFFER_BYTES - r.offset) / RECORD_SIZE else available;
      var tail := if fit > available then available else fit;
      var early := if tail == 0 then Some([]) else ReadAt(file, r.offset, RECORD_SIZE * tail);
      var recent := if tail == available then Some([]) else ReadAt(file, HEADER_SIZE, RECORD_SIZE * (available - tail));
      if early.None? || recent.None? then None else Some(Loaded(early.value + recent.value, available))
  }

  function Whole(b: Option<Bytes>, count: nat): Option<Loaded> {
    match b case None => None case Some(bytes) => Some(Loaded(bytes, count))
  }

  /** After any number of records, the last ones that fit are loaded, in order. */
  lemma UnrolledIsLast(file: Bytes, header: Bytes, blocks: seq<Bytes>)
    requires Holds(file, header, blocks)
    ensures Unrolled(file, RingAfter(|blocks|)) == LastRecords(blocks)
  {
    if 0 < |blocks| <= SLOTS {
      NotLapped(file, header, blocks);
      assert blocks[0..] == blocks;
    } else if |blocks| > SLOTS {
      UnrolledLap(file, header, blocks, (|blocks| - 1) % SLOTS + 1);
    }
  }

  lemma UnrolledLap(file: Bytes, header: Bytes, blocks: seq<Bytes>, k: nat)
    requires Holds(file, header, blocks) && |blocks| > SLOTS && k == (|blocks| - 1) % SLOTS + 1
    ensures Unrolled(file, RingAfter(|blocks|)) == Some(Loaded(Cat(blocks[|blocks| - SLOTS..]), SLOTS))
  {
    var n := |blocks|;
    Lapped(file, header, blocks, k);
    Fit(k);
    assert Available(RingAfter(n)) == SLOTS;
    assert blocks[n - SLOTS..] == blocks[n - SLOTS..n - k] + blocks[n - k..];
    CatConcat(blocks[n - SLOTS..n - k], blocks[n - k..]);
    if k == SLOTS { assert blocks[n - SLOTS..n - k] == []; }
  }

  lemma Fit(k: nat)
    requires k <= SLOTS
    ensures (BUFFER_BYTES - (HEADER_SIZE + RECORD_SIZE * k)) / RECORD_SIZE == SLOTS - k
  {
  }
}
