/** Block copies over one memory, indexed by address. */
module Memory {

  /** The block at `dest` takes what the block at `src` held, and nothing else changes. */
  ghost predicate Moved<T>(before: seq<T>, after: seq<T>, dest: nat, src: nat, n: nat) {
    && |after| == |before| && dest + n <= |before| && src + n <= |before|
    && forall i :: 0 <= i < |before| ==> after[i] == before[if dest <= i < dest + n then i - dest + src else i]
  }

  /** Forward, in eights once the destination is aligned; right also for an overlap that moves down. */
  method Memcpy<T>(a: array<T>, dest: nat, src: nat, n: nat)
    requires dest + n <= a.Length && src + n <= a.Length
    requires dest <= src || src + n <= dest
    modifies a
    ensures Moved(old(a[..]), a[..], dest, src, n)
  {
    ghost var was := a[..];
    var k := 0;
    if n >= 16 {
      while (dest + k) % 8 != 0 && n - k > 0
        invariant k <= n && Moved(was, a[..], dest, src, k)
        decreases n - k
      {
        CopyByte(a, dest, src, k, was);
        k := k + 1;
      }
      while n - k >= 8
        invariant k <= n && Moved(was, a[..], dest, src, k)
        decreases n - k
      {
        CopyWord(a, dest, src, k, was);
        k := k + 8;
      }
    }
    while n - k != 0
      invariant k <= n && Moved(was, a[..], dest, src, k)
      decreases n - k
    {
      CopyByte(a, dest, src, k, was);
      k := k + 1;
    }
  }

  method CopyByte<T>(a: array<T>, dest: nat, src: nat, k: nat, ghost was: seq<T>)
    requires Moved(was, a[..], dest, src, k) && dest + k < a.Length && src + k < a.Length
    requires dest <= src || src + k < dest
    modifies a
    ensures Moved(was, a[..], dest, src, k + 1)
  {
    a[dest + k] := a[src + k];
  }

  /** Eight at once: all are read before any is written. */
  method CopyWord<T>(a: array<T>, dest: nat, src: nat, k: nat, ghost was: seq<T>)
    requires Moved(was, a[..], dest, src, k) && dest + k + 8 <= a.Length && src + k + 8 <= a.Length
    requires dest <= src || src + k + 8 <= dest
    modifies a
    ensures Moved(was, a[..], dest, src, k + 8)
  {
    var word := a[src + k..src + k + 8];
    forall i | dest + k <= i < dest + k + 8 {
      a[i] := word[i - (dest + k)];
    }
  }

  /** Right for every overlap. */
  method Memmove<T>(a: array<T>, dest: nat, src: nat, n: nat)
    requires dest + n <= a.Length && src + n <= a.Length
    modifies a
    ensures Moved(old(a[..]), a[..], dest, src, n)
  {
    if dest < src {
      Memcpy(a, dest, src, n);
    } else if dest > src {
      var k := n;
      while k != 0
        invariant 0 <= k <= n
        invariant Moved(old(a[..]), a[..], dest + k, src + k, n - k)
        decreases k
      {
        k := k - 1;
        a[dest + k] := a[src + k];
      }
    }
  }

  // ---- Records laid out in a memory of bytes --------------------------------

  /** The bytes of `n` records of `size` bytes each. */
  function Span(size: nat, n: nat): nat {
    if n == 0 then 0 else Span(size, n - 1) + size
  }

  lemma {:induction false} SpanAdds(size: nat, a: nat, b: nat)
    ensures Span(size, a + b) == Span(size, a) + Span(size, b)
    decreases b
  {
    if b > 0 {
      SpanAdds(size, a, b - 1);
    }
  }

  lemma {:induction false} SpanGrows(size: nat, a: nat, b: nat)
    requires a <= b
    ensures Span(size, a) <= Span(size, b)
    decreases b
  {
    if a < b {
      SpanGrows(size, a, b - 1);
    }
  }

  /** Records one after another. */
  function Bytes<R, T>(records: seq<R>, bytes: R -> seq<T>): seq<T> {
    if records == [] then [] else Bytes(records[..|records| - 1], bytes) + bytes(records[|records| - 1])
  }

  ghost predicate Sized<R(!new), T>(size: nat, bytes: R -> seq<T>) {
    forall r :: |bytes(r)| == size
  }

  lemma {:induction false} BytesLength<R(!new), T>(records: seq<R>, size: nat, bytes: R -> seq<T>)
    requires Sized(size, bytes)
    ensures |Bytes(records, bytes)| == Span(size, |records|)
    decreases |records|
  {
    if records != [] {
      BytesLength(records[..|records| - 1], size, bytes);
    }
  }

  lemma {:induction false} ByteAt<R(!new), T>(records: seq<R>, size: nat, bytes: R -> seq<T>, i: nat, k: nat)
    requires Sized(size, bytes) && i < |records| && k < size
    ensures |bytes(records[i])| == size && Span(size, i) + k < |Bytes(records, bytes)|
    ensures Bytes(records, bytes)[Span(size, i) + k] == bytes(records[i])[k]
    decreases |records|
  {
    var n := |records| - 1;
    BytesLength(records[..n], size, bytes);
    if i < n {
      ByteAt(records[..n], size, bytes, i, k);
    }
  }

  /** Moving the bytes of whole records is moving the records. */
  lemma {:induction false} MovesRecords<R(!new), T>(before: seq<R>, after: seq<R>, size: nat, bytes: R -> seq<T>,
                                                    moved: seq<T>, dest: nat, src: nat, n: nat)
    requires Sized(size, bytes) && Moved(before, after, dest, src, n)
    requires Moved(Bytes(before, bytes), moved, Span(size, dest), Span(size, src), Span(size, n))
    ensures moved == Bytes(after, bytes)
  {
    BytesLength(before, size, bytes);
    BytesLength(after, size, bytes);
    forall j | 0 <= j < |moved| ensures moved[j] == Bytes(after, bytes)[j] {
      MovesByte(before, after, size, bytes, moved, dest, src, n, j);
    }
  }

  lemma MovesByte<R(!new), T>(before: seq<R>, after: seq<R>, size: nat, bytes: R -> seq<T>,
                              moved: seq<T>, dest: nat, src: nat, n: nat, j: nat)
    requires Sized(size, bytes) && Moved(before, after, dest, src, n)
    requires Moved(Bytes(before, bytes), moved, Span(size, dest), Span(size, src), Span(size, n))
    requires j < |moved| == Span(size, |before|) == |Bytes(after, bytes)|
    ensures moved[j] == Bytes(after, bytes)[j]
  {
    var i, k := Place(j, size, |before|);
    ByteAt(after, size, bytes, i, k);
    if dest <= i < dest + n {
      ByteAt(before, size, bytes, i - dest + src, k);
      Inside(i, dest, src, n, size);
    } else {
      ByteAt(before, size, bytes, i, k);
      Outside(i, dest, n, size);
    }
  }

  /** Byte `j` is byte `k` of record `i`. */
  lemma {:induction false} Place(j: nat, size: nat, count: nat) returns (i: nat, k: nat)
    requires j < Span(size, count)
    ensures i < count && k < size && j == Span(size, i) + k
    decreases count
  {
    if j >= Span(size, count - 1) {
      i, k := count - 1, j - Span(size, count - 1);
    } else {
      i, k := Place(j, size, count - 1);
    }
  }

  lemma Inside(i: nat, dest: nat, src: nat, n: nat, size: nat)
    requires dest <= i < dest + n
    ensures Span(size, dest) <= Span(size, i) && Span(size, i) + size <= Span(size, dest) + Span(size, n)
    ensures Span(size, i - dest + src) == Span(size, i) - Span(size, dest) + Span(size, src)
  {
    SpanAdds(size, dest, i - dest);
    SpanAdds(size, src, i - dest);
    SpanGrows(size, i - dest + 1, n);
  }

  lemma Outside(i: nat, dest: nat, n: nat, size: nat)
    requires !(dest <= i < dest + n)
    ensures Span(size, i) + size <= Span(size, dest) || Span(size, dest) + Span(size, n) <= Span(size, i)
  {
    if i < dest {
      SpanGrows(size, i + 1, dest);
    } else {
      SpanAdds(size, dest, n);
      SpanGrows(size, dest + n, i);
    }
  }
}
