/** Texts made of pieces. */
module Joins {
  function Concat(pieces: seq<string>): string {
    if pieces == [] then [] else Concat(pieces[..|pieces| - 1]) + pieces[|pieces| - 1]
  }

  lemma ConcatSnoc(pieces: seq<string>, from: nat, i: nat)
    requires from <= i < |pieces|
    ensures Concat(pieces[from..i + 1]) == Concat(pieces[from..i]) + pieces[i]
  {
    assert pieces[from..i + 1][..i - from] == pieces[from..i];
  }

  lemma {:induction false} ConcatAppend(a: seq<string>, b: seq<string>)
    ensures Concat(a + b) == Concat(a) + Concat(b)
    decreases |b|
  {
    if b == [] {
      assert a + b == a;
    } else {
      var k := |b| - 1;
      assert (a + b)[..|a + b| - 1] == a + b[..k];
      ConcatAppend(a, b[..k]);
      assert Concat(a) + Concat(b[..k]) + b[k] == Concat(a) + (Concat(b[..k]) + b[k]);
    }
  }

  lemma ConcatOne(piece: string)
    ensures Concat([piece]) == piece
  {
    assert [piece][..0] == [];
  }

  /** How far one gets, from piece `i` on, with `room` characters. */
  function Reaches(pieces: seq<string>, i: nat, room: nat): (r: nat)
    requires i <= |pieces|
    ensures i <= r <= |pieces|
    decreases |pieces| - i
  {
    if i < |pieces| && |pieces[i]| <= room then Reaches(pieces, i + 1, room - |pieces[i]|) else i
  }

  /** As far as possible: the pieces fit, and the next one would not. */
  lemma {:induction false} ReachesIsMaximal(pieces: seq<string>, i: nat, room: nat)
    requires i <= |pieces|
    ensures var r := Reaches(pieces, i, room);
      |Concat(pieces[i..r])| <= room && (r < |pieces| ==> |Concat(pieces[i..r])| + |pieces[r]| > room)
    decreases |pieces| - i
  {
    var r := Reaches(pieces, i, room);
    if r == i {
      assert pieces[i..r] == [];
    } else {
      ReachesIsMaximal(pieces, i + 1, room - |pieces[i]|);
      assert pieces[i..r] == [pieces[i]] + pieces[i + 1..r];
      ConcatAppend([pieces[i]], pieces[i + 1..r]);
      ConcatOne(pieces[i]);
    }
  }

  /** `size` characters from `offset` on, or what there is of them. */
  function Slice(s: string, offset: nat, size: nat): string {
    var from := if offset < |s| then offset else |s|;
    var to := if size < |s| - from then from + size else |s|;
    s[from..to]
  }

  /** Slices one after the other give the whole, whatever their sizes. */
  lemma SlicesJoin(s: string, offset: nat, a: nat, b: nat)
    ensures var first := Slice(s, offset, a); first + Slice(s, offset + |first|, b) == Slice(s, offset, a + b)
    ensures |Slice(s, offset, a)| < a ==> offset + |Slice(s, offset, a)| >= |s|
  {
  }

  lemma SlicesAdd(s: string, offset: nat, a: nat, b: nat, first: string, second: string, both: string)
    requires first == Slice(s, offset, a) && second == Slice(s, offset + |first|, b) && both == Slice(s, offset, a + b)
    ensures first + second == both
  {
    SlicesJoin(s, offset, a, b);
  }

  function Total(sizes: seq<nat>): nat {
    if sizes == [] then 0 else sizes[0] + Total(sizes[1..])
  }

  /** What a reader gets that asks for these sizes, going on each time where the last answer ended. */
  function Chunks(s: string, offset: nat, sizes: seq<nat>): string
    decreases |sizes|
  {
    if sizes == [] then []
    else
      var first := Slice(s, offset, sizes[0]);
      first + Chunks(s, offset + |first|, sizes[1..])
  }

  lemma {:induction false} ChunksAreOne(s: string, offset: nat, sizes: seq<nat>)
    ensures Chunks(s, offset, sizes) == Slice(s, offset, Total(sizes))
    decreases |sizes|
  {
    if sizes != [] {
      var first := Slice(s, offset, sizes[0]);
      ChunksAreOne(s, offset + |first|, sizes[1..]);
      assert Chunks(s, offset, sizes) == first + Chunks(s, offset + |first|, sizes[1..]);
      SlicesAdd(s, offset, sizes[0], Total(sizes[1..]), first, Chunks(s, offset + |first|, sizes[1..]), Slice(s, offset, Total(sizes)));
    }
  }

  /** It is one slice, whatever the sizes; and everything if and only if the sizes add up to that. */
  lemma ChunksJoin(s: string, offset: nat, sizes: seq<nat>)
    requires offset <= |s|
    ensures Chunks(s, offset, sizes) == Slice(s, offset, Total(sizes))
    ensures Chunks(s, offset, sizes) == s[offset..] <==> Total(sizes) >= |s| - offset
  {
    ChunksAreOne(s, offset, sizes);
  }

  /** What a slice that begins at `offset` takes from a line after `passed` characters, when it still has `room`. */
  function Part(line: string, passed: nat, offset: nat, room: nat): string {
    if offset >= passed + |line| then []
    else
      var at := if offset > passed then offset - passed else 0;
      if |line| - at < room then line[at..] else line[at..at + room]
  }

  lemma SliceAppend(s: string, line: string, offset: nat, size: nat)
    ensures |Slice(s, offset, size)| <= size
    ensures Slice(s + line, offset, size) == Slice(s, offset, size) + Part(line, |s|, offset, size - |Slice(s, offset, size)|)
  {
  }

  lemma SliceFull(s: string, more: string, offset: nat, size: nat)
    requires |Slice(s, offset, size)| == size
    ensures Slice(s + more, offset, size) == Slice(s, offset, size)
  {
  }
}
