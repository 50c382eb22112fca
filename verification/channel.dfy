/** One history channel of the measurement buffer: a fixed-stride array of
    entries of `dim` scalars each, with a fill counter.

    The channel class itself lives in mjpc/estimators/trajectory.h, which is
    not part of this model. The operations below are the ones the buffer
    uses, with the behaviour its use sites rely on:
    - `ShiftHead` is `ShiftHeadIndex(1)`: entry 0 is dropped and entries
      [1, length) move down one slot; `length` is unchanged;
    - `Set(v, idx)` overwrites the entry at `idx`;
    - `Reset` clears `length`;
    - `Append` is the buffer's own "copy into slot `length`, then bump
      `length`" pattern. */
module Channels {

  /** `length` valid entries, entry `i` stored flat at
      `data[Offset(i, dim) .. Offset(i, dim) + dim]`, that is at
      `[i * dim, (i + 1) * dim)`; storage past `Offset(length, dim)` is
      stale. */
  datatype Channel<T> = Channel(dim: nat, length: nat, data: seq<T>)

  /** Where entry `i` starts in flat storage of stride `dim`. Defined by
      repeated addition so that proofs about strides stay linear;
      `OffsetIsProduct` shows it is `i * dim`. */
  function Offset(i: nat, dim: nat): (o: nat)
  {
    if i == 0 then 0 else Offset(i - 1, dim) + dim
  }

  lemma {:induction false} OffsetIsProduct(i: nat, dim: nat)
    ensures Offset(i, dim) == i * dim
  {
    if i > 0 {
      OffsetIsProduct(i - 1, dim);
    }
  }

  /** Later entries start no earlier. */
  lemma {:induction false} OffsetMono(i: nat, j: nat, dim: nat)
    requires i <= j
    ensures Offset(i, dim) <= Offset(j, dim)
    decreases j - i
  {
    if i < j {
      OffsetMono(i, j - 1, dim);
    }
  }

  /** The storage has room for `slots` whole entries. */
  predicate Holds<T>(c: Channel<T>, slots: nat)
  {
    Offset(slots, c.dim) <= |c.data|
  }

  lemma HoldsFewer<T>(c: Channel<T>, n: nat, k: nat)
    requires n <= k && Holds(c, k)
    ensures Holds(c, n)
  {
    OffsetMono(n, k, c.dim);
  }

  /** The `dim` scalars of entry `i` in a flat array of stride `dim`. */
  function Slot<T>(data: seq<T>, dim: nat, i: nat): (s: seq<T>)
    requires Offset(i + 1, dim) <= |data|
    ensures |s| == dim
    ensures forall j :: 0 <= j < dim ==> s[j] == data[Offset(i, dim) + j]
  {
    data[Offset(i, dim) .. Offset(i, dim) + dim]
  }

  /** The valid entries of a channel, oldest first. */
  function Entries<T>(c: Channel<T>): (es: seq<seq<T>>)
    requires Holds(c, c.length)
    ensures |es| == c.length
    ensures forall i :: 0 <= i < c.length ==> |es[i]| == c.dim
  {
    seq(c.length, (i: int) requires 0 <= i < c.length =>
      HoldsFewer(c, i + 1, c.length); Slot(c.data, c.dim, i))
  }

  /** Entry `i` of the view is slot `i` of the flat storage. */
  lemma EntrySlot<T>(c: Channel<T>, i: nat)
    requires Holds(c, c.length) && i < c.length
    ensures Offset(i + 1, c.dim) <= |c.data|
    ensures Entries(c)[i] == Slot(c.data, c.dim, i)
  {
    HoldsFewer(c, i + 1, c.length);
  }

  /** `after` is `before` with `v` copied in at offset `off` and nothing
      else changed (the effect of `mju_copy`/`memcpy` into flat storage). */
  ghost predicate WrittenAt<T>(before: seq<T>, after: seq<T>, off: nat, v: seq<T>)
  {
    && |after| == |before|
    && off + |v| <= |before|
    && after[off .. off + |v|] == v
    && forall k :: 0 <= k < |before| && (k < off || off + |v| <= k) ==> after[k] == before[k]
  }

  function Write<T>(data: seq<T>, off: nat, v: seq<T>): (r: seq<T>)
    requires off + |v| <= |data|
    ensures WrittenAt(data, r, off, v)
  {
    data[..off] + v + data[off + |v|..]
  }

  /** After writing slot `j`, slot `i` holds the written value when
      `i == j` and its old contents otherwise. */
  lemma SlotAfterWrite<T>(before: seq<T>, after: seq<T>, v: seq<T>, dim: nat, j: nat, i: nat)
    requires |v| == dim && WrittenAt(before, after, Offset(j, dim), v)
    requires Offset(i + 1, dim) <= |before|
    ensures Slot(after, dim, i) == if i == j then v else Slot(before, dim, i)
  {
    if i < j {
      OffsetMono(i + 1, j, dim);
    } else if j < i {
      OffsetMono(j + 1, i, dim);
    }
  }

  /** A fresh channel with room for `capacity` entries, all blank. */
  function Init<T>(dim: nat, capacity: nat, blank: T): (c: Channel<T>)
    ensures c.dim == dim && c.length == 0
    ensures Holds(c, capacity)
    ensures Entries(c) == []
  {
    Channel(dim, 0, seq(Offset(capacity, dim), _ => blank))
  }

  /** Clearing a channel forgets every entry but keeps dimension and storage. */
  function Reset<T>(c: Channel<T>): (r: Channel<T>)
    ensures r.dim == c.dim && r.length == 0 && |r.data| == |c.data|
    ensures Entries(r) == []
  {
    c.(length := 0)
  }

  /** `c'` is `c` with `v` written into slot `c.length` and one more entry. */
  ghost predicate Appended<T>(c: Channel<T>, c': Channel<T>, v: seq<T>)
  {
    && c'.dim == c.dim
    && c'.length == c.length + 1
    && WrittenAt(c.data, c'.data, Offset(c.length, c.dim), v)
  }

  /** The flat write at stride offset `length * dim` appends one entry to
      the entry view and leaves the older entries alone. */
  lemma {:induction false} AppendedEntries<T>(c: Channel<T>, c': Channel<T>, v: seq<T>)
    requires |v| == c.dim && Holds(c, c.length + 1)
    requires Appended(c, c', v)
    ensures Holds(c', c'.length)
    ensures Entries(c') == Entries(c) + [v]
  {
    HoldsFewer(c, c.length, c.length + 1);
    var es, es' := Entries(c), Entries(c');
    forall i | 0 <= i < c.length
      ensures es'[i] == es[i]
    {
      EntrySlot(c, i);
      EntrySlot(c', i);
      SlotAfterWrite(c.data, c'.data, v, c.dim, c.length, i);
    }
    EntrySlot(c', c.length);
    SlotAfterWrite(c.data, c'.data, v, c.dim, c.length, c.length);
  }

  function Append<T>(c: Channel<T>, v: seq<T>): (r: Channel<T>)
    requires |v| == c.dim && Holds(c, c.length + 1)
    ensures Appended(c, r, v)
    ensures Holds(r, r.length) && Entries(r) == Entries(c) + [v]
  {
    var r := Channel(c.dim, c.length + 1, Write(c.data, Offset(c.length, c.dim), v));
    AppendedEntries(c, r, v);
    r
  }

  /** `ShiftHeadIndex(1)`: entries [1, length) move to [0, length - 1); the
      last slot keeps its old contents until the caller overwrites it. */
  function ShiftHead<T>(c: Channel<T>): (r: Channel<T>)
    requires 1 <= c.length && Holds(c, c.length)
    ensures r.dim == c.dim && r.length == c.length && |r.data| == |c.data|
    ensures Holds(r, r.length)
    ensures Entries(r)[..c.length - 1] == Entries(c)[1..]
  {
    OffsetMono(1, c.length, c.dim);
    var r := Channel(c.dim, c.length,
      c.data[c.dim .. Offset(c.length, c.dim)] + c.data[Offset(c.length - 1, c.dim) ..]);
    ShiftedEntries(c, r);
    r
  }

  /** A slot read from storage shifted down by one stride is the next slot
      of the unshifted storage. */
  lemma SlotShifted<T>(a: seq<T>, b: seq<T>, d: nat, i: nat, n: nat)
    requires Offset(i + 1, d) <= n && n + d <= |a| && n <= |b|
    requires forall k :: 0 <= k < n ==> b[k] == a[k + d]
    ensures Offset(i + 2, d) <= |a|
    ensures Slot(b, d, i) == Slot(a, d, i + 1)
  {
    forall j | 0 <= j < d
      ensures Slot(b, d, i)[j] == Slot(a, d, i + 1)[j]
    {
      assert b[Offset(i, d) + j] == a[Offset(i, d) + j + d];
    }
  }

  lemma {:induction false} ShiftedEntries<T>(c: Channel<T>, r: Channel<T>)
    requires 1 <= c.length && Holds(c, c.length)
    requires c.dim <= Offset(c.length, c.dim)
    requires r == Channel(c.dim, c.length,
      c.data[c.dim .. Offset(c.length, c.dim)] + c.data[Offset(c.length - 1, c.dim) ..])
    ensures |r.data| == |c.data| && Holds(r, r.length)
    ensures Entries(r)[..c.length - 1] == Entries(c)[1..]
  {
    var d, n := c.dim, Offset(c.length - 1, c.dim);
    assert n + d == Offset(c.length, d);
    assert forall k :: 0 <= k < n ==> r.data[k] == c.data[k + d];
    var es, es' := Entries(c), Entries(r);
    forall i | 0 <= i < c.length - 1
      ensures es'[i] == es[i + 1]
    {
      EntrySlot(c, i + 1);
      EntrySlot(r, i);
      OffsetMono(i + 1, c.length - 1, d);
      SlotShifted(c.data, r.data, d, i, n);
    }
  }

  /** `Set(v, idx)`: overwrite the entry at `idx`. */
  function Set<T>(c: Channel<T>, v: seq<T>, idx: nat): (r: Channel<T>)
    requires |v| == c.dim && Holds(c, idx + 1)
    ensures r.dim == c.dim && r.length == c.length
    ensures WrittenAt(c.data, r.data, Offset(idx, c.dim), v)
  {
    Channel(c.dim, c.length, Write(c.data, Offset(idx, c.dim), v))
  }

  /** Writing entry `idx` of the valid window replaces exactly that entry:
      reading it back gives `v`, every other entry is unchanged. */
  lemma {:induction false} SetEntries<T>(c: Channel<T>, v: seq<T>, idx: nat)
    requires |v| == c.dim && Holds(c, c.length) && idx < c.length
    ensures Holds(c, idx + 1)
    ensures Holds(Set(c, v, idx), c.length)
    ensures Entries(Set(c, v, idx)) == Entries(c)[idx := v]
  {
    HoldsFewer(c, idx + 1, c.length);
    var r := Set(c, v, idx);
    var es, es' := Entries(c), Entries(r);
    forall i | 0 <= i < c.length
      ensures es'[i] == es[idx := v][i]
    {
      EntrySlot(c, i);
      EntrySlot(r, i);
      SlotAfterWrite(c.data, r.data, v, c.dim, idx, i);
    }
  }

  /** Shift-then-overwrite-the-last-slot slides the window by one entry:
      the oldest is evicted and `v` becomes the newest. */
  lemma {:induction false} ShiftThenSet<T>(c: Channel<T>, v: seq<T>)
    requires |v| == c.dim && Holds(c, c.length) && 1 <= c.length
    ensures Holds(ShiftHead(c), c.length)
    ensures Holds(Set(ShiftHead(c), v, c.length - 1), c.length)
    ensures Entries(Set(ShiftHead(c), v, c.length - 1)) == Entries(c)[1..] + [v]
  {
    var s := ShiftHead(c);
    SetEntries(s, v, c.length - 1);
    var es := Entries(s);
    assert es[..c.length - 1] == Entries(c)[1..];
    assert es[c.length - 1 := v] == es[..c.length - 1] + [v];
  }

  /** The buffer's shift-branch pattern on one channel: `ShiftHeadIndex(1)`
      and then `Set(v, idx)` with `idx` the last slot. */
  function ShiftAndSet<T>(c: Channel<T>, v: seq<T>, idx: nat): (r: Channel<T>)
    requires |v| == c.dim && Holds(c, c.length) && 1 <= c.length && idx == c.length - 1
    ensures r.dim == c.dim && r.length == c.length && |r.data| == |c.data|
    ensures Holds(r, r.length)
    ensures Entries(r) == Entries(c)[1..] + [v]
  {
    ShiftThenSet(c, v);
    Set(ShiftHead(c), v, idx)
  }
}
