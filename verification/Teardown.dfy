/**
 * Tearing down an address space: freeing its private tables and the frames it owns.
 *
 * Both architectures do this with the same routine; a `Layout` holds what differs.
 */
module Teardown {
  import opened Options
  import opened Radix
  import opened Sequences

  datatype Layout<!W> = Layout(
    f: Format<W>,
    valid: W -> bool,                 // the entry is looked at
    child: W -> W,                    // the page it points to
    place: (W, nat, W) -> W,          // the address of an index, from the table's own address and its level
    order: nat -> seq<W>,             // the indices visited, by level
    origin: W)                        // the address where a root begins

  /** One call of the page allocator, with the table indices that lead to the page. */
  datatype Call<W> = FreeTable(page: W, at: Path<W>) | FreeFrame(page: W, at: Path<W>, virt: W)

  /** The calls made for entry `i` of table `t`, which has `depth` levels left. */
  function EntryCalls<W>(l: Layout<W>, mem: Memory<W>, owns: W -> bool, t: W, prefix: Path<W>, base: W, depth: nat, i: W): seq<Call<W>>
    requires depth >= 1
    decreases depth, 0
  {
    var w := Read(l.f, mem, Slot(t, i));
    var virt := l.place(base, depth, i);
    if !l.valid(w) then []
    else if depth == 1 then if owns(virt) then [FreeFrame(l.child(w), prefix + [i], virt)] else []
    else TableCalls(l, mem, owns, l.child(w), prefix + [i], virt, depth - 1)
  }

  function LoopCalls<W>(l: Layout<W>, mem: Memory<W>, owns: W -> bool, t: W, prefix: Path<W>, base: W, depth: nat, k: nat): seq<Call<W>>
    requires depth >= 1 && k <= |l.order(depth)|
    decreases depth, 1, |l.order(depth)| - k
  {
    if k == |l.order(depth)| then []
    else EntryCalls(l, mem, owns, t, prefix, base, depth, l.order(depth)[k]) + LoopCalls(l, mem, owns, t, prefix, base, depth, k + 1)
  }

  function TableCalls<W>(l: Layout<W>, mem: Memory<W>, owns: W -> bool, t: W, prefix: Path<W>, base: W, depth: nat): seq<Call<W>>
    requires depth >= 1
    decreases depth, 2
  {
    LoopCalls(l, mem, owns, t, prefix, base, depth, 0) + [FreeTable(t, prefix)]
  }

  // ---- What should be freed -----------------------------------------------

  /** The table at the end of indices `q`, which are fewer than the levels left. */
  ghost function Follow<W(!new)>(f: Format<W>, mem: Memory<W>, t: W, depth: nat, q: Path<W>): Option<W>
    requires |q| < depth
    decreases |q|
  {
    if q == [] then Some(t)
    else
      match f.kind(depth, Read(f, mem, Slot(t, q[0])))
      case Table(next) => Follow(f, mem, next, depth - 1, q[1..])
      case _ => None
  }

  /** The address of indices `q` below a table at `base`. */
  ghost function AddressFrom<W(!new)>(l: Layout<W>, base: W, depth: nat, q: Path<W>): W
    requires |q| <= depth
    decreases |q|
  {
    if q == [] then base else AddressFrom(l, l.place(base, depth, q[0]), depth - 1, q[1..])
  }

  /** The call frees a table of the tree, or a frame that one of its pages maps and `owns` claims for that page's address. */
  ghost predicate Due<W(!new)>(l: Layout<W>, mem: Memory<W>, owns: W -> bool, t: W, prefix: Path<W>, base: W, depth: nat, c: Call<W>) {
    prefix <= c.at &&
    var q := c.at[|prefix|..];
    && (q != [] && depth > 0 ==> q[0] in l.order(depth))
    && match c
       case FreeTable(page, _) => |q| < depth && Follow(l.f, mem, t, depth, q) == Some(page)
       case FreeFrame(page, _, virt) =>
         && |q| == depth && virt == AddressFrom(l, base, depth, q) && owns(virt)
         && var o := Walk(l.f, mem, t, q);
            o.Hit? && o.rest == 1 && page == l.child(o.word)
  }

  // ---- The private tree ---------------------------------------------------

  /** On the words that may stand in a table, the layout reads them as the format does. */
  ghost predicate Reads<W(!new)>(l: Layout<W>) {
    forall h: Home<W>, i, w :: |h.prefix| < l.f.levels && l.f.ok(h, i, w) ==> ReadsWord(l, l.f.levels - |h.prefix|, w)
  }

  ghost predicate ReadsWord<W(!new)>(l: Layout<W>, rest: nat, w: W) {
    && (l.valid(w) <==> l.f.kind(rest, w) != Hole)
    && (l.f.kind(rest, w).Table? ==> l.f.kind(rest, w) == Table(l.child(w)))
  }

  ghost predicate Distinct<T(!new)>(s: seq<T>) {
    forall j, k :: 0 <= j < k < |s| ==> s[j] != s[k]
  }

  /** What root `root` does not share with the others. */
  ghost predicate Private<W(!new)>(own: Owners<W>, root: W, t: W) {
    Owned(own, t) && HomeOf(own, t).root == Some(root)
  }

  /** The private tables of `root` hold no large pages, and every entry outside the visited indices is empty or shared. */
  ghost predicate Discardable<W(!new)>(l: Layout<W>, mem: Memory<W>, own: Owners<W>, root: W) {
    && (forall d :: Distinct(l.order(d)))
    && (forall i :: i in l.order(l.f.levels) ==> !l.f.shared(i))
    && (forall t, i :: Private(own, root, t) ==> EntryPlain(l, mem, own, t, i))
  }

  ghost predicate EntryPlain<W(!new)>(l: Layout<W>, mem: Memory<W>, own: Owners<W>, t: W, i: W)
    requires Owned(own, t)
  {
    Depth(own, t) < l.f.levels &&
    var depth := l.f.levels - Depth(own, t);
    && (depth > 1 && i in l.order(depth) ==> l.f.kind(depth, Read(l.f, mem, Slot(t, i))) != Leaf)
    && (i in l.order(depth) || l.f.kind(depth, Read(l.f, mem, Slot(t, i))) == Hole || (depth == l.f.levels && l.f.shared(i)))
    && (depth == 1 ==> !l.f.kind(depth, Read(l.f, mem, Slot(t, i))).Table?)
  }

  /** At the last level no word is a link. */
  ghost predicate LastIsLast<W(!new)>(f: Format<W>) {
    forall w :: !f.kind(1, w).Table?
  }

  lemma LastWord<W(!new)>(f: Format<W>, w: W)
    requires LastIsLast(f)
    ensures !f.kind(1, w).Table?
  {
  }

  /** `t` is the private table at `prefix`. */
  ghost predicate Hangs<W(!new)>(l: Layout<W>, own: Owners<W>, root: W, t: W, prefix: Path<W>, depth: nat) {
    && Owned(own, t) && HomeOf(own, t) == Home(Some(root), prefix)
    && depth >= 1 && depth + |prefix| == l.f.levels
  }

  /** What a visited entry is. */
  lemma VisitEntry<W(!new)>(l: Layout<W>, mem: Memory<W>, own: Owners<W>, root: W, t: W, prefix: Path<W>, depth: nat, i: W)
    requires Reads(l) && Unshared(l.f, mem, own) && Discardable(l, mem, own, root) && Hangs(l, own, root, t, prefix, depth)
    requires i in l.order(depth)
    ensures var w := Read(l.f, mem, Slot(t, i));
      if !l.valid(w) then l.f.kind(depth, w) == Hole
      else if depth == 1 then l.f.kind(depth, w) == Leaf
      else l.f.kind(depth, w) == Table(l.child(w)) && Hangs(l, own, root, l.child(w), prefix + [i], depth - 1)
  {
    var w := Read(l.f, mem, Slot(t, i));
    assert Linked(l.f, mem, own, t, i);
    assert ReadsWord(l, l.f.levels - |HomeOf(own, t).prefix|, w);
    assert Private(own, root, t) && EntryPlain(l, mem, own, t, i);
  }

  // ---- Exactly these calls ------------------------------------------------

  lemma {:induction false} InLoop<W(!new)>(l: Layout<W>, mem: Memory<W>, owns: W -> bool, t: W, prefix: Path<W>, base: W, depth: nat, k: nat, c: Call<W>)
    requires depth >= 1 && k <= |l.order(depth)|
    ensures c in LoopCalls(l, mem, owns, t, prefix, base, depth, k) <==>
      exists j :: k <= j < |l.order(depth)| && c in EntryCalls(l, mem, owns, t, prefix, base, depth, l.order(depth)[j])
    decreases |l.order(depth)| - k
  {
    if k < |l.order(depth)| {
      InLoop(l, mem, owns, t, prefix, base, depth, k + 1, c);
    }
  }

  /** The calls for a table are those due for its tree. */
  lemma {:induction false} CallsAreDue<W(!new)>(l: Layout<W>, mem: Memory<W>, own: Owners<W>, root: W, owns: W -> bool, t: W, prefix: Path<W>, base: W, depth: nat, c: Call<W>)
    requires Reads(l) && Unshared(l.f, mem, own) && Discardable(l, mem, own, root) && Hangs(l, own, root, t, prefix, depth)
    ensures c in TableCalls(l, mem, owns, t, prefix, base, depth) <==> Due(l, mem, owns, t, prefix, base, depth, c)
    decreases depth, 1
  {
    InLoop(l, mem, owns, t, prefix, base, depth, 0, c);
    forall i | i in l.order(depth)
      ensures c in EntryCalls(l, mem, owns, t, prefix, base, depth, i) <==>
              Due(l, mem, owns, t, prefix, base, depth, c) && prefix + [i] <= c.at
    {
      EntryCallsAreDue(l, mem, own, root, owns, t, prefix, base, depth, i, c);
    }
    if Due(l, mem, owns, t, prefix, base, depth, c) {
      if |c.at| == |prefix| {
        assert c.at == prefix && c.at[|prefix|..] == [];
      } else {
        var q := c.at[|prefix|..];
        assert prefix + [q[0]] <= c.at;
        var j :| 0 <= j < |l.order(depth)| && l.order(depth)[j] == q[0];
      }
    }
    if c == FreeTable(t, prefix) {
      assert c.at[|prefix|..] == [];
    }
  }

  lemma {:induction false} EntryCallsAreDue<W(!new)>(l: Layout<W>, mem: Memory<W>, own: Owners<W>, root: W, owns: W -> bool, t: W, prefix: Path<W>, base: W, depth: nat, i: W, c: Call<W>)
    requires Reads(l) && Unshared(l.f, mem, own) && Discardable(l, mem, own, root) && Hangs(l, own, root, t, prefix, depth)
    requires i in l.order(depth)
    ensures c in EntryCalls(l, mem, owns, t, prefix, base, depth, i) <==>
            Due(l, mem, owns, t, prefix, base, depth, c) && prefix + [i] <= c.at
    decreases depth, 0
  {
    VisitEntry(l, mem, own, root, t, prefix, depth, i);
    var w, virt := Read(l.f, mem, Slot(t, i)), l.place(base, depth, i);
    if prefix + [i] <= c.at {
      DueStep(l, mem, own, root, owns, t, prefix, base, depth, i, c);
    }
    if l.valid(w) && depth > 1 {
      CallsAreDue(l, mem, own, root, owns, l.child(w), prefix + [i], virt, depth - 1, c);
    }
  }

  /** What is due below a table at an index is what is due for the entry there. */
  lemma DueStep<W(!new)>(l: Layout<W>, mem: Memory<W>, own: Owners<W>, root: W, owns: W -> bool, t: W, prefix: Path<W>, base: W, depth: nat, i: W, c: Call<W>)
    requires Reads(l) && Unshared(l.f, mem, own) && Discardable(l, mem, own, root) && Hangs(l, own, root, t, prefix, depth)
    requires i in l.order(depth) && prefix + [i] <= c.at
    ensures var w, virt := Read(l.f, mem, Slot(t, i)), l.place(base, depth, i);
      Due(l, mem, owns, t, prefix, base, depth, c) <==>
        l.valid(w) &&
        if depth == 1 then owns(virt) && c == FreeFrame(l.child(w), prefix + [i], virt)
        else Due(l, mem, owns, l.child(w), prefix + [i], virt, depth - 1, c)
  {
    VisitEntry(l, mem, own, root, t, prefix, depth, i);
    var q, w := c.at[|prefix|..], Read(l.f, mem, Slot(t, i));
    assert c.at == prefix + q && q[0] == i;
    if depth == 1 {
      if |q| == 1 {
        assert c.at == prefix + [i] && q[1..] == [];
        assert AddressFrom(l, base, depth, q) == AddressFrom(l, l.place(base, depth, i), 0, []);
        assert l.valid(w) ==> Walk(l.f, mem, t, q) == Hit(1, Slot(t, i), w);
      } else {
        assert |prefix + [i]| == |prefix| + 1;
      }
    } else if l.valid(w) {
      if |q| > 1 { VisitOther(l, mem, own, root, l.child(w), prefix + [i], depth - 1, q[1]); }
      DueInner(l, mem, owns, t, prefix, base, depth, i, c, l.child(w));
    }
  }

  lemma DueInner<W(!new)>(l: Layout<W>, mem: Memory<W>, owns: W -> bool, t: W, prefix: Path<W>, base: W, depth: nat, i: W, c: Call<W>, next: W)
    requires i in l.order(depth) && prefix + [i] <= c.at && depth > 1
    requires l.f.kind(depth, Read(l.f, mem, Slot(t, i))) == Table(next)
    requires var q := c.at[|prefix|..]; |q| > 1 && q[1] !in l.order(depth - 1) ==> l.f.kind(depth - 1, Read(l.f, mem, Slot(next, q[1]))) == Hole
    ensures Due(l, mem, owns, t, prefix, base, depth, c) <==> Due(l, mem, owns, next, prefix + [i], l.place(base, depth, i), depth - 1, c)
  {
    var q := c.at[|prefix|..];
    var r := c.at[|prefix + [i]|..];
    assert q[0] == i && q[1..] == r;
    assert |q| < depth ==> Follow(l.f, mem, t, depth, q) == Follow(l.f, mem, next, depth - 1, r);
    assert |q| == depth ==> Walk(l.f, mem, t, q) == Walk(l.f, mem, next, r);
  }

  lemma VisitOther<W(!new)>(l: Layout<W>, mem: Memory<W>, own: Owners<W>, root: W, t: W, prefix: Path<W>, depth: nat, i: W)
    requires Discardable(l, mem, own, root) && Hangs(l, own, root, t, prefix, depth) && prefix != []
    ensures i in l.order(depth) || l.f.kind(depth, Read(l.f, mem, Slot(t, i))) == Hole
  {
    assert Private(own, root, t) && EntryPlain(l, mem, own, t, i);
  }

  // ---- Each once ----------------------------------------------------------

  ghost predicate DistinctPlaces<W(!new)>(calls: seq<Call<W>>) {
    forall j, k :: 0 <= j < k < |calls| ==> calls[j].at != calls[k].at
  }

  lemma {:induction false} CallsBelow<W(!new)>(l: Layout<W>, mem: Memory<W>, owns: W -> bool, t: W, prefix: Path<W>, base: W, depth: nat, c: Call<W>)
    requires depth >= 1 && c in TableCalls(l, mem, owns, t, prefix, base, depth)
    ensures prefix <= c.at
    decreases depth, 1
  {
    InLoop(l, mem, owns, t, prefix, base, depth, 0, c);
    if c != FreeTable(t, prefix) {
      var j :| 0 <= j < |l.order(depth)| && c in EntryCalls(l, mem, owns, t, prefix, base, depth, l.order(depth)[j]);
      EntryCallsBelow(l, mem, owns, t, prefix, base, depth, l.order(depth)[j], c);
    }
  }

  lemma {:induction false} EntryCallsBelow<W(!new)>(l: Layout<W>, mem: Memory<W>, owns: W -> bool, t: W, prefix: Path<W>, base: W, depth: nat, i: W, c: Call<W>)
    requires depth >= 1 && c in EntryCalls(l, mem, owns, t, prefix, base, depth, i)
    ensures prefix + [i] <= c.at
    decreases depth, 0
  {
    if depth > 1 {
      CallsBelow(l, mem, owns, l.child(Read(l.f, mem, Slot(t, i))), prefix + [i], l.place(base, depth, i), depth - 1, c);
    }
  }

  lemma DistinctConcat<W(!new)>(a: seq<Call<W>>, b: seq<Call<W>>)
    requires DistinctPlaces(a) && DistinctPlaces(b) && forall c, d :: c in a && d in b ==> c.at != d.at
    ensures DistinctPlaces(a + b)
  {
    forall j, k | 0 <= j < k < |a + b|
      ensures (a + b)[j].at != (a + b)[k].at
    {
      if j < |a| <= k {
        assert a[j] in a && b[k - |a|] in b;
      }
    }
  }

  /** No place is freed twice. */
  lemma {:induction false} CallsDistinct<W(!new)>(l: Layout<W>, mem: Memory<W>, owns: W -> bool, t: W, prefix: Path<W>, base: W, depth: nat)
    requires depth >= 1 && forall d :: Distinct(l.order(d))
    ensures DistinctPlaces(TableCalls(l, mem, owns, t, prefix, base, depth))
    decreases depth, 2
  {
    LoopDistinct(l, mem, owns, t, prefix, base, depth, 0);
    forall c | c in LoopCalls(l, mem, owns, t, prefix, base, depth, 0)
      ensures c.at != prefix
    {
      InLoop(l, mem, owns, t, prefix, base, depth, 0, c);
      var j :| 0 <= j < |l.order(depth)| && c in EntryCalls(l, mem, owns, t, prefix, base, depth, l.order(depth)[j]);
      EntryCallsBelow(l, mem, owns, t, prefix, base, depth, l.order(depth)[j], c);
    }
    DistinctConcat(LoopCalls(l, mem, owns, t, prefix, base, depth, 0), [FreeTable(t, prefix)]);
  }

  lemma {:induction false} LoopDistinct<W(!new)>(l: Layout<W>, mem: Memory<W>, owns: W -> bool, t: W, prefix: Path<W>, base: W, depth: nat, k: nat)
    requires depth >= 1 && k <= |l.order(depth)| && forall d :: Distinct(l.order(d))
    ensures DistinctPlaces(LoopCalls(l, mem, owns, t, prefix, base, depth, k))
    decreases depth, 1, |l.order(depth)| - k
  {
    if k < |l.order(depth)| {
      var i := l.order(depth)[k];
      var here, later := EntryCalls(l, mem, owns, t, prefix, base, depth, i), LoopCalls(l, mem, owns, t, prefix, base, depth, k + 1);
      LoopDistinct(l, mem, owns, t, prefix, base, depth, k + 1);
      var w := Read(l.f, mem, Slot(t, i));
      if depth > 1 {
        CallsDistinct(l, mem, owns, l.child(w), prefix + [i], l.place(base, depth, i), depth - 1);
      }
      forall c, d | c in here && d in later
        ensures c.at != d.at
      {
        ApartInLoop(l, mem, owns, t, prefix, base, depth, k, c, d);
      }
      DistinctConcat(here, later);
    }
  }

  lemma ApartInLoop<W(!new)>(l: Layout<W>, mem: Memory<W>, owns: W -> bool, t: W, prefix: Path<W>, base: W, depth: nat, k: nat, c: Call<W>, d: Call<W>)
    requires depth >= 1 && k < |l.order(depth)| && Distinct(l.order(depth))
    requires c in EntryCalls(l, mem, owns, t, prefix, base, depth, l.order(depth)[k])
    requires d in LoopCalls(l, mem, owns, t, prefix, base, depth, k + 1)
    ensures c.at != d.at
  {
    InLoop(l, mem, owns, t, prefix, base, depth, k + 1, d);
    var j :| k + 1 <= j < |l.order(depth)| && d in EntryCalls(l, mem, owns, t, prefix, base, depth, l.order(depth)[j]);
    EntryCallsBelow(l, mem, owns, t, prefix, base, depth, l.order(depth)[k], c);
    EntryCallsBelow(l, mem, owns, t, prefix, base, depth, l.order(depth)[j], d);
    assert c.at[|prefix|] == l.order(depth)[k] && d.at[|prefix|] == l.order(depth)[j];
  }

  /** A table of the tree hangs where it was found. */
  lemma {:induction false} FollowHangs<W(!new)>(l: Layout<W>, mem: Memory<W>, own: Owners<W>, root: W, t: W, prefix: Path<W>, depth: nat, q: Path<W>)
    requires Reads(l) && Unshared(l.f, mem, own) && Discardable(l, mem, own, root) && Hangs(l, own, root, t, prefix, depth)
    requires |q| < depth && Follow(l.f, mem, t, depth, q).Some? && (q != [] ==> q[0] in l.order(depth))
    ensures Hangs(l, own, root, Follow(l.f, mem, t, depth, q).value, prefix + q, depth - |q|)
    decreases |q|
  {
    if q == [] {
      assert prefix + q == prefix;
    } else {
      VisitEntry(l, mem, own, root, t, prefix, depth, q[0]);
      var next := l.child(Read(l.f, mem, Slot(t, q[0])));
      if |q| > 1 { VisitOther(l, mem, own, root, next, prefix + [q[0]], depth - 1, q[1]); }
      FollowHangs(l, mem, own, root, next, prefix + [q[0]], depth - 1, q[1..]);
      assert prefix + [q[0]] + q[1..] == prefix + q;
    }
  }

  lemma ThreePlaces<W(!new)>(l: Layout<W>, base: W, q: Path<W>)
    requires |q| == 3
    ensures AddressFrom(l, base, 3, q) == l.place(l.place(l.place(base, 3, q[0]), 2, q[1]), 1, q[2])
  {
    assert q[1..][1..] == [q[2]] && [q[2]][1..] == [];
    var last := l.place(l.place(base, 3, q[0]), 2, q[1]);
    assert AddressFrom(l, last, 1, [q[2]]) == AddressFrom(l, l.place(last, 1, q[2]), 0, []);
  }

  lemma FourPlaces<W(!new)>(l: Layout<W>, base: W, q: Path<W>)
    requires |q| == 4
    ensures AddressFrom(l, base, 4, q) == l.place(l.place(l.place(l.place(base, 4, q[0]), 3, q[1]), 2, q[2]), 1, q[3])
  {
    ThreePlaces(l, l.place(base, 4, q[0]), q[1..]);
  }

  // ---- The routine --------------------------------------------------------

  function Pages<W>(calls: seq<Call<W>>): (r: seq<W>)
    ensures |r| == |calls| && forall j :: 0 <= j < |r| ==> r[j] == calls[j].page
  {
    if calls == [] then [] else [calls[0].page] + Pages(calls[1..])
  }

  lemma PagesConcat<W(!new)>(a: seq<Call<W>>, b: seq<Call<W>>)
    ensures Pages(a + b) == Pages(a) + Pages(b)
  {
  }

  /** Frees the page that entry `i` owns, or the tree of tables behind it. */
  method DiscardEntry<W(!new)>(l: Layout<W>, mem: Memory<W>, owns: W -> bool, t: W, ghost prefix: Path<W>, base: W, depth: nat, i: W) returns (freed: seq<W>)
    requires depth >= 1
    ensures freed == Pages(EntryCalls(l, mem, owns, t, prefix, base, depth, i))
    decreases depth, 0
  {
    var w := Read(l.f, mem, Slot(t, i));
    if !l.valid(w) { return []; }
    var child, virt := l.child(w), l.place(base, depth, i);
    if depth > 1 {
      freed := DiscardTable(l, mem, owns, child, prefix + [i], virt, depth - 1);
    } else {
      freed := if owns(virt) then [child] else [];
    }
  }

  /** Frees what the entries of a table own, and the table. */
  method DiscardTable<W(!new)>(l: Layout<W>, mem: Memory<W>, owns: W -> bool, t: W, ghost prefix: Path<W>, base: W, depth: nat) returns (freed: seq<W>)
    requires depth >= 1
    ensures freed == Pages(TableCalls(l, mem, owns, t, prefix, base, depth))
    decreases depth, 1
  {
    freed := [];
    ghost var done: seq<Call<W>> := [];
    var order := l.order(depth);
    for k := 0 to |order|
      invariant freed == Pages(done)
      invariant done + LoopCalls(l, mem, owns, t, prefix, base, depth, k) == LoopCalls(l, mem, owns, t, prefix, base, depth, 0)
    {
      var more := DiscardEntry(l, mem, owns, t, prefix, base, depth, order[k]);
      PagesConcat(done, EntryCalls(l, mem, owns, t, prefix, base, depth, order[k]));
      Regroup(done, EntryCalls(l, mem, owns, t, prefix, base, depth, order[k]), LoopCalls(l, mem, owns, t, prefix, base, depth, k + 1));
      freed := freed + more;
      done := done + EntryCalls(l, mem, owns, t, prefix, base, depth, order[k]);
    }
    PagesConcat(done, [FreeTable(t, prefix)]);
    freed := freed + [t];
  }

  // ---- Large pages --------------------------------------------------------

  ghost predicate Visited<W(!new)>(l: Layout<W>, depth: nat, q: Path<W>)
    requires |q| <= depth
    decreases |q|
  {
    q == [] || (q[0] in l.order(depth) && Visited(l, depth - 1, q[1..]))
  }

  /**
   * A large page is taken for a table: the page it maps is freed as one, although no table
   * hangs there and whether or not the frame is owned.
   */
  lemma {:induction false} LargeIsFreed<W(!new)>(l: Layout<W>, mem: Memory<W>, own: Owners<W>, owns: W -> bool, t: W, prefix: Path<W>, base: W, depth: nat, q: Path<W>)
    requires Reads(l) && Unshared(l.f, mem, own) && Owned(own, t) && Depth(own, t) + depth == l.f.levels
    requires 0 < |q| < depth && Visited(l, depth, q)
    requires var u := Follow(l.f, mem, t, depth, q[..|q| - 1]);
      u.Some? && l.f.kind(depth - |q| + 1, Read(l.f, mem, Slot(u.value, q[|q| - 1]))) == Leaf
    ensures exists c :: c in TableCalls(l, mem, owns, t, prefix, base, depth) && c.FreeTable? && c.at == prefix + q
                        && Follow(l.f, mem, t, depth, q) == None
    decreases |q|
  {
    var i := q[0];
    var w := Read(l.f, mem, Slot(t, i));
    assert Linked(l.f, mem, own, t, i);
    assert ReadsWord(l, l.f.levels - |HomeOf(own, t).prefix|, w);
    var next, virt := l.child(w), l.place(base, depth, i);
    var below := TableCalls(l, mem, owns, next, prefix + [i], virt, depth - 1);
    if |q| == 1 {
      assert q[..0] == [];
      var c := FreeTable(next, prefix + [i]);
      assert c in below;
      EntryInTable(l, mem, owns, t, prefix, base, depth, i, c);
      assert q == [i];
    } else {
      assert q[..|q| - 1][0] == i && q[..|q| - 1][1..] == q[1..][..|q| - 2];
      LargeIsFreed(l, mem, own, owns, next, prefix + [i], virt, depth - 1, q[1..]);
      var c :| c in below && c.FreeTable? && c.at == prefix + [i] + q[1..];
      EntryInTable(l, mem, owns, t, prefix, base, depth, i, c);
      assert prefix + [i] + q[1..] == prefix + q;
    }
  }

  lemma EntryInTable<W(!new)>(l: Layout<W>, mem: Memory<W>, owns: W -> bool, t: W, prefix: Path<W>, base: W, depth: nat, i: W, c: Call<W>)
    requires depth >= 1 && i in l.order(depth) && c in EntryCalls(l, mem, owns, t, prefix, base, depth, i)
    ensures c in TableCalls(l, mem, owns, t, prefix, base, depth)
  {
    InLoop(l, mem, owns, t, prefix, base, depth, 0, c);
    var j :| 0 <= j < |l.order(depth)| && l.order(depth)[j] == i;
  }
}
