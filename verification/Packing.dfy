/** Little-endian structures in byte strings. */
module Packing {
  import opened Sequences

  type Byte = n: nat | n < 256
  type Bytes = seq<Byte>
  type U16 = n: nat | n < 0x1_0000
  type U32 = n: nat | n < 0x1_0000_0000
  type U64 = n: nat | n < 0x1_0000_0000_0000_0000

  lemma Cut<T>(a: seq<T>, b: seq<T>)
    ensures (a + b)[..|a|] == a && (a + b)[|a|..] == b
  {
  }

  function Pow256(k: nat): (p: nat)
    ensures p >= 1
  {
    if k == 0 then 1 else 256 * Pow256(k - 1)
  }

  function Little(v: nat, k: nat): (b: Bytes)
    ensures |b| == k
    decreases k
  {
    if k == 0 then [] else [v % 256] + Little(v / 256, k - 1)
  }

  function Number(b: Bytes): nat {
    if b == [] then 0 else b[0] + 256 * Number(b[1..])
  }

  lemma {:induction false} NumberOfLittle(v: nat, k: nat)
    requires v < Pow256(k)
    ensures Number(Little(v, k)) == v
    decreases k
  {
    if k > 0 {
      assert v / 256 < Pow256(k - 1);
      NumberOfLittle(v / 256, k - 1);
      assert Little(v, k)[1..] == Little(v / 256, k - 1);
    }
  }

  /** The sizes of a structure's fields. */
  type Layout = seq<nat>

  function Size(l: Layout): nat {
    if l == [] then 0 else l[0] + Size(l[1..])
  }

  /** The values fit their fields. */
  predicate Fits(l: Layout, values: seq<nat>)
    decreases |l|
  {
    |values| == |l| && (l == [] || (values[0] < Pow256(l[0]) && Fits(l[1..], values[1..])))
  }

  lemma {:induction false} FitsEach(l: Layout, values: seq<nat>)
    requires |values| == |l| && forall i :: 0 <= i < |l| ==> values[i] < Pow256(l[i])
    ensures Fits(l, values)
    decreases |l|
  {
    if l != [] { FitsEach(l[1..], values[1..]); }
  }

  /** The ranges of the fields that occur. */
  lemma Widths()
    ensures Pow256(2) == 0x1_0000 && Pow256(4) == 0x1_0000_0000 && Pow256(8) == 0x1_0000_0000_0000_0000
  {
  }

  function Pack(l: Layout, values: seq<nat>): (b: Bytes)
    requires |values| == |l|
    ensures |b| == Size(l)
    decreases |l|
  {
    if l == [] then [] else Little(values[0], l[0]) + Pack(l[1..], values[1..])
  }

  function Unpack(l: Layout, b: Bytes): (values: seq<nat>)
    requires |b| >= Size(l)
    ensures |values| == |l|
    decreases |l|
  {
    if l == [] then [] else [Number(b[..l[0]])] + Unpack(l[1..], b[l[0]..])
  }

  lemma {:induction false} UnpackPack(l: Layout, values: seq<nat>, rest: Bytes)
    requires Fits(l, values)
    ensures Unpack(l, Pack(l, values) + rest) == values
    decreases |l|
  {
    if l != [] {
      var first, tail := Little(values[0], l[0]), Pack(l[1..], values[1..]);
      NumberOfLittle(values[0], l[0]);
      UnpackPack(l[1..], values[1..], rest);
      Regroup(first, tail, rest);
      Cut(first, tail + rest);
    }
  }

  /** Blocks one after the other. */
  function Cat(blocks: seq<Bytes>): Bytes {
    if blocks == [] then [] else blocks[0] + Cat(blocks[1..])
  }

  lemma {:induction false} CatConcat(a: seq<Bytes>, b: seq<Bytes>)
    ensures Cat(a + b) == Cat(a) + Cat(b)
    decreases |a|
  {
    if a == [] {
      assert a + b == b;
    } else {
      assert (a + b)[1..] == a[1..] + b;
      CatConcat(a[1..], b);
      Regroup(a[0], Cat(a[1..]), Cat(b));
    }
  }

  lemma {:induction false} CatIsSmall(blocks: seq<Bytes>)
    requires forall i :: 0 <= i < |blocks| ==> |blocks[i]| < 0x1_0000_0000
    ensures |Cat(blocks)| <= 0x1_0000_0000 * |blocks|
    decreases |blocks|
  {
    if blocks != [] { CatIsSmall(blocks[1..]); }
  }

  lemma CatOne(block: Bytes)
    ensures Cat([block]) == block
  {
    assert [block][1..] == [];
  }

  /** A write at `offset` into a file that is at least that long. */
  function WriteAt(file: Bytes, offset: nat, b: Bytes): (r: Bytes)
    requires offset <= |file|
    ensures |r| >= offset + |b| && |r| >= |file|
    ensures r[offset..offset + |b|] == b && r[..offset] == file[..offset]
  {
    file[..offset] + b + (if offset + |b| <= |file| then file[offset + |b|..] else [])
  }

  lemma WriteElsewhere(file: Bytes, offset: nat, b: Bytes, from: nat, to: nat)
    requires offset <= |file| && from <= to <= |file| && (to <= offset || offset + |b| <= from)
    ensures WriteAt(file, offset, b)[from..to] == file[from..to]
  {
  }
}
