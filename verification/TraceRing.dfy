/** The per-CPU trace ring: one writer per CPU that may be stopped anywhere, and a snapshot of all CPUs. */
module TraceRing {
  const CAPACITY := 256
  const FIELDS := 9

  /** A trace record, field by field in the order the writer stores them. */
  type Fields = s: seq<nat> | |s| == FIELDS witness [0, 0, 0, 0, 0, 0, 0, 0, 0]

  datatype Slot = Slot(fields: Fields, committed: nat)

  /** Where the writer of a CPU stands. */
  datatype Phase = Idle | Claimed | Storing(stored: nat)

  function Start(written: nat): nat {
    if written > CAPACITY then written - CAPACITY else 0
  }

  lemma OtherSlot(i: nat, j: nat)
    requires i < j < i + CAPACITY
    ensures i % CAPACITY != j % CAPACITY
  {
  }

  class Buffer {
    const slots: array<Slot>
    var written: nat
    var phase: Phase
    ghost var history: seq<Fields>      // every record a writer has begun

    /** The records that are completely written. */
    ghost function Done(): nat
      reads this
    {
      if phase.Idle? || written == 0 then written else written - 1
    }

    ghost predicate Valid()
      reads this, slots
    {
      && slots.Length == CAPACITY && |history| == written && (!phase.Idle? ==> written > 0)
      && (forall i :: Start(written) <= i < Done() ==> slots[i % CAPACITY] == Slot(history[i], i + 1))
      && (forall i :: written <= i < CAPACITY ==> slots[i].committed == 0)
      && (!phase.Idle? ==> slots[(written - 1) % CAPACITY].committed != written)
      && (phase.Storing? ==> Partly(slots[(written - 1) % CAPACITY], history[written - 1], phase.stored))
    }

    constructor ()
      ensures Valid() && history == [] && phase == Idle && fresh(slots)
    {
      slots := new Slot[CAPACITY](_ => Slot([0, 0, 0, 0, 0, 0, 0, 0, 0], 0));
      written, phase, history := 0, Idle, [];
    }

    /** Takes the next number; the slot still holds the record of one lap ago. */
    method Claim(ghost record: Fields)
      requires Valid() && phase == Idle
      modifies this
      ensures Valid() && phase == Claimed && history == old(history) + [record]
    {
      written := written + 1;
      phase := Claimed;
      history := history + [record];
      forall i | Start(written) <= i < Done()
        ensures slots[i % CAPACITY] == Slot(history[i], i + 1)
      {
        assert Start(written - 1) <= i;
      }
      OldSlot();
    }

    /** A slot that has not been claimed for this lap is not committed for it. */
    lemma OldSlot()
      requires slots.Length == CAPACITY && phase == Claimed && written > 0 && |history| == written
      requires forall i :: Start(written - 1) <= i < written - 1 ==> slots[i % CAPACITY] == Slot(history[i], i + 1)
      requires written <= CAPACITY ==> slots[(written - 1) % CAPACITY].committed == 0
      ensures slots[(written - 1) % CAPACITY].committed != written
    {
      if written > CAPACITY {
        var i := written - 1 - CAPACITY;
        assert i % CAPACITY == (written - 1) % CAPACITY;
      }
    }

    method Clear()
      requires Valid() && phase == Claimed
      modifies this`phase, slots
      ensures Valid() && phase == Storing(0)
    {
      SetSlot(slots[(written - 1) % CAPACITY].(committed := 0));
      phase := Storing(0);
    }

    /** A store into the slot being written leaves the other records alone. */
    method SetSlot(slot: Slot)
      requires slots.Length == CAPACITY && written > 0
      modifies slots
      ensures slots[(written - 1) % CAPACITY] == slot
      ensures forall i :: Start(written) <= i < written - 1 ==> slots[i % CAPACITY] == old(slots[i % CAPACITY])
      ensures forall i :: written <= i < CAPACITY ==> slots[i] == old(slots[i])
    {
      slots[(written - 1) % CAPACITY] := slot;
      forall i | Start(written) <= i < written - 1
        ensures slots[i % CAPACITY] == old(slots[i % CAPACITY])
      {
        OtherSlot(i, written - 1);
      }
    }

    method StoreField(value: nat)
      requires Valid() && phase.Storing? && phase.stored < FIELDS && value == history[written - 1][phase.stored]
      modifies this`phase, slots
      ensures Valid() && phase == Storing(old(phase.stored) + 1)
    {
      var slot := slots[(written - 1) % CAPACITY];
      SetSlot(slot.(fields := slot.fields[phase.stored := value]));
      phase := Storing(phase.stored + 1);
    }

    method Commit()
      requires Valid() && phase == Storing(FIELDS)
      modifies this`phase, slots
      ensures Valid() && phase == Idle
    {
      var slot := slots[(written - 1) % CAPACITY];
      assert slot.fields == history[written - 1];
      SetSlot(slot.(committed := written));
      phase := Idle;
    }

    /** The whole operation; `Valid` holds after each of its steps. */
    method Record(record: Fields)
      requires Valid() && phase == Idle
      modifies this, slots
      ensures Valid() && phase == Idle && history == old(history) + [record]
    {
      Claim(record);
      Clear();
      for k := 0 to FIELDS
        invariant Valid() && phase == Storing(k) && history == old(history) + [record]
      {
        StoreField(record[k]);
      }
      Commit();
    }

    /** What a snapshot of this CPU should hold: the completed ones among the last records claimed. */
    ghost function Published(): seq<Fields>
      requires Valid()
      reads this, slots
    {
      history[Start(written)..Done()]
    }
  }

  /** The first `n` fields are those of the record, and the slot is marked as not committed. */
  ghost predicate Partly(slot: Slot, record: Fields, n: nat) {
    slot.committed == 0 && n <= FIELDS && forall k :: 0 <= k < n ==> slot.fields[k] == record[k]
  }

  // ---- The snapshot -------------------------------------------------------

  function Cut<T>(s: seq<T>, max: nat): seq<T> {
    if |s| <= max then s else s[..max]
  }

  ghost predicate AllValid(buffers: seq<Buffer>)
    reads buffers, set b | b in buffers :: b.slots
  {
    forall i :: 0 <= i < |buffers| ==> buffers[i].Valid()
  }

  /** What the first `n` CPUs have published, one CPU after another. */
  ghost function AllPublished(buffers: seq<Buffer>, n: nat): seq<Fields>
    requires n <= |buffers| && AllValid(buffers)
    reads buffers, set b | b in buffers :: b.slots
  {
    if n == 0 then [] else AllPublished(buffers, n - 1) + buffers[n - 1].Published()
  }

  lemma CutMore<T>(s: seq<T>, t: seq<T>, max: nat)
    ensures Cut(s + t, max) == Cut(Cut(s, max) + t, max)
  {
  }

  /** One CPU: appends what is published, as long as there is room. */
  method CopyCpu(b: Buffer, max: nat, before: seq<Fields>) returns (out: seq<Fields>)
    requires b.Valid() && |before| <= max
    ensures out == Cut(before + b.Published(), max)
  {
    out := before;
    var sequence := Start(b.written);
    ghost var start := sequence;
    while sequence < b.written && |out| < max
      invariant start <= sequence <= b.written && |out| <= max
      invariant out == before + b.history[start..Min(sequence, b.Done())]
    {
      var slot := b.slots[sequence % CAPACITY];
      if slot.committed == sequence + 1 {
        assert sequence < b.Done();
        assert b.history[start..sequence + 1] == b.history[start..sequence] + [b.history[sequence]];
        out := out + [slot.fields];
      }
      sequence := sequence + 1;
    }
    CutPrefix(before, b.history, start, Min(sequence, b.Done()), b.Done(), max);
  }

  function Min(a: nat, b: nat): nat {
    if a < b then a else b
  }

  lemma CutPrefix<T>(before: seq<T>, s: seq<T>, from: nat, seen: nat, to: nat, max: nat)
    requires from <= seen <= to <= |s| && |before| + (seen - from) <= max && (seen == to || |before| + (seen - from) == max)
    ensures Cut(before + s[from..to], max) == before + s[from..seen]
  {
  }

  /** All CPUs in turn: exactly the published records, cut only by the room there is. */
  method Snapshot(buffers: seq<Buffer>, max: nat) returns (out: seq<Fields>)
    requires AllValid(buffers)
    ensures out == Cut(AllPublished(buffers, |buffers|), max)
  {
    out := [];
    for cpu := 0 to |buffers|
      invariant |out| <= max && out == Cut(AllPublished(buffers, cpu), max)
    {
      out := CopyNext(buffers, cpu, max, out);
    }
  }

  method CopyNext(buffers: seq<Buffer>, cpu: nat, max: nat, before: seq<Fields>) returns (out: seq<Fields>)
    requires AllValid(buffers) && cpu < |buffers| && |before| <= max && before == Cut(AllPublished(buffers, cpu), max)
    ensures out == Cut(AllPublished(buffers, cpu + 1), max)
  {
    CutMore(AllPublished(buffers, cpu), buffers[cpu].Published(), max);
    out := CopyCpu(buffers[cpu], max, before);
  }

  // ---- Statistics ---------------------------------------------------------

  function All(written: nat): nat {
    written
  }

  function Available(written: nat): nat {
    if written < CAPACITY then written else CAPACITY
  }

  /** A count summed over the CPUs. */
  ghost function Total(buffers: seq<Buffer>, count: nat -> nat): nat
    reads buffers
  {
    if buffers == [] then 0 else Total(buffers[..|buffers| - 1], count) + count(buffers[|buffers| - 1].written)
  }

  /** Over all CPUs, every record claimed was overwritten or is available. */
  method FillStats(buffers: seq<Buffer>) returns (written: nat, overwritten: nat, available: nat)
    ensures written == Total(buffers, All) && overwritten == Total(buffers, Start) && available == Total(buffers, Available)
    ensures written == overwritten + available && available <= CAPACITY * |buffers|
  {
    written, overwritten, available := 0, 0, 0;
    for cpu := 0 to |buffers|
      invariant written == Total(buffers[..cpu], All) && overwritten == Total(buffers[..cpu], Start) && available == Total(buffers[..cpu], Available)
      invariant written == overwritten + available && available <= CAPACITY * cpu
    {
      assert buffers[..cpu + 1][..cpu] == buffers[..cpu];
      var w := buffers[cpu].written;
      written := written + w;
      if w > CAPACITY { overwritten := overwritten + (w - CAPACITY); }
      available := available + if w < CAPACITY then w else CAPACITY;
    }
    assert buffers[..|buffers|] == buffers;
  }
}
