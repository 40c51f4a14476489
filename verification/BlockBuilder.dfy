/**
 The block builder: keys are stored without the prefix they share with the key before, except at restart
 points.
 */
module BlockBuilder {
  import opened Block
  import BlockIter

  class Builder {
    const interval: nat
    var buffer: Bytes
    var restarts: seq<nat>
    var counter: nat
    var lastKey: Bytes
    ghost var pairs: seq<Pair>
    ghost var layout: Layout

    ghost predicate Valid()
      reads this
    {
      && interval >= 1 && lastKey == LastKey(pairs)
      && Consistent(buffer, restarts, pairs, layout, interval) && CounterOk(counter, pairs, layout, interval)
    }

    constructor (n: nat)
      requires n >= 1
      ensures Valid() && pairs == [] && interval == n
    {
      interval := n;
      buffer := [];
      restarts := [0];
      counter := 0;
      lastKey := [];
      pairs := [];
      layout := Layout([0], [], [0]);
    }

    method SharedWithLast(key: Bytes) returns (shared: nat)
      ensures SharesMost(lastKey, key, shared)
    {
      shared := 0;
      while shared < |lastKey| && shared < |key| && lastKey[shared] == key[shared]
        invariant shared <= |lastKey| && shared <= |key| && lastKey[..shared] == key[..shared]
      {
        assert lastKey[..shared + 1] == lastKey[..shared] + [lastKey[shared]];
        assert key[..shared + 1] == key[..shared] + [key[shared]];
        shared := shared + 1;
      }
    }

    /** The bytes of the entry, the new last key, and the count since the last restart point. */
    method AppendEntry(shared: nat, key: Bytes, value: Bytes)
      requires SharesPrefix(lastKey, key, shared) && |key| < TWO32 && |value| < TWO32
      modifies this
      ensures buffer == old(buffer) + EntryBytes(shared, Pair(key, value)) && lastKey == key
      ensures restarts == if old(counter) < interval then old(restarts) else old(restarts) + [|old(buffer)|]
      ensures counter == (if old(counter) < interval then old(counter) else 0) + 1
      ensures pairs == old(pairs) + [Pair(key, value)]
      ensures layout == Grown(old(layout), shared, |buffer|, |old(pairs)|, old(counter) >= interval)
      ensures |buffer| <= |old(buffer)| + Room(Pair(key, value))
    {
      ghost var restart := counter >= interval;
      if counter >= interval {
        restarts := restarts + [|buffer|];
        counter := 0;
      }
      EntryFits(shared, Pair(key, value));
      var nonShared := |key| - shared;
      buffer := buffer + (Varint(shared) + Varint(nonShared) + Varint(|value|) + key[shared..] + value);
      lastKey := lastKey[..shared] + key[shared..];
      counter := counter + 1;
      layout := Grown(layout, shared, |buffer|, |pairs|, restart);
      pairs := pairs + [Pair(key, value)];
    }

    /** The entry shares the longest prefix it can with the one before it, unless it is a restart point:
        the first entry, and the one after each interval. */
    method Add(key: Bytes, value: Bytes)
      requires Valid() && |key| < TWO32 && |value| < TWO32
      modifies this
      ensures Valid() && pairs == old(pairs) + [Pair(key, value)]
      ensures layout.starts ==
                if old(counter) < interval then old(layout.starts) else old(layout.starts) + [|old(pairs)|]
      ensures old(counter) < interval ==> SharesMost(old(lastKey), key, layout.shared[|old(pairs)|])
      ensures |buffer| <= |old(buffer)| + Room(Pair(key, value))
    {
      var shared := 0;
      if counter < interval {
        shared := SharedWithLast(key);
      }
      ghost var e := Pair(key, value);
      Grow(buffer, buffer + EntryBytes(shared, e), restarts, counter, pairs, layout, e, shared, interval);
      AppendEntry(shared, key, value);
    }

    method Finish() returns (data: Bytes)
      requires Valid() && |buffer| < TWO32 && |restarts| < TWO32
      ensures Laid(data, |buffer|, pairs, layout)
      ensures Spaced(layout.starts, |pairs|, interval) && Compressed(pairs, layout)
    {
      data := buffer;
      for i := 0 to |restarts|
        invariant data == buffer + RestartBytes(restarts[..i])
      {
        assert restarts[..i + 1][..i] == restarts[..i];
        data := data + Fixed32(restarts[i]);
      }
      data := data + Fixed32(|restarts|);
      assert restarts[..|restarts|] == restarts;
      FinishedIsLaid(data, buffer, restarts, pairs, layout);
    }
  }

  // ----- Building a block and reading it -----

  /** The room an entry takes at most: three numbers, the key and the value. */
  function Room(e: Pair): nat {
    15 + |e.key| + |e.value|
  }

  function RoomFor(pairs: seq<Pair>): nat {
    if pairs == [] then 0 else RoomFor(pairs[..|pairs| - 1]) + Room(pairs[|pairs| - 1])
  }

  lemma {:induction false} VarintIsShort(n: nat, max: nat)
    requires 0 < max && n < Capacity(max)
    ensures |Varint(n)| <= max
    decreases max
  {
    if n >= 128 {
      VarintIsShort(n / 128, max - 1);
    }
  }

  lemma {:induction false} EntryFits(shared: nat, e: Pair)
    requires shared <= |e.key| < TWO32 && |e.value| < TWO32
    ensures |EntryBytes(shared, e)| <= Room(e)
  {
    Capacity5();
    VarintIsShort(shared, 5);
    VarintIsShort(|e.key| - shared, 5);
    VarintIsShort(|e.value|, 5);
  }

  lemma {:induction false} RoomOfPart(pairs: seq<Pair>, i: nat)
    requires i < |pairs|
    ensures RoomFor(pairs[..i + 1]) == RoomFor(pairs[..i]) + Room(pairs[i])
    ensures RoomFor(pairs[..i]) + Room(pairs[i]) <= RoomFor(pairs)
    decreases |pairs|
  {
    var n := |pairs| - 1;
    assert pairs[..i + 1][..i] == pairs[..i];
    if i < n {
      RoomOfPart(pairs[..n], i);
      assert pairs[..n][..i] == pairs[..i];
    }
  }

  lemma {:induction false} PairsTakeRoom(pairs: seq<Pair>)
    ensures 15 * |pairs| <= RoomFor(pairs)
  {
    if pairs != [] {
      PairsTakeRoom(pairs[..|pairs| - 1]);
    }
  }

  lemma {:induction false} StartsAreFew(starts: seq<nat>, n: nat, r: nat)
    requires InOrder(starts, n) && r < |starts|
    ensures r <= starts[r] <= n
  {
    if r > 0 {
      StartsAreFew(starts, n, r - 1);
      assert starts[r - 1] < starts[r];
    }
  }

  lemma {:induction false} RestartsAreFew(buffer: Bytes, restarts: seq<nat>, pairs: seq<Pair>, l: Layout, interval: nat)
    requires Consistent(buffer, restarts, pairs, l, interval)
    ensures |restarts| == |l.starts| <= |pairs| + 1
  {
    StartsAreFew(l.starts, |pairs|, |l.starts| - 1);
  }

  method AddPair(b: Builder, e: Pair)
    requires b.Valid() && |e.key| < TWO32 && |e.value| < TWO32
    modifies b
    ensures b.Valid() && b.pairs == old(b.pairs) + [e] && |b.buffer| <= |old(b.buffer)| + Room(e)
  {
    b.Add(e.key, e.value);
  }

  /** All pairs added one after the other. */
  method AddAll(interval: nat, pairs: seq<Pair>) returns (b: Builder)
    requires interval >= 1 && RoomFor(pairs) < TWO32
    ensures fresh(b) && b.Valid() && b.pairs == pairs && |b.buffer| <= RoomFor(pairs)
  {
    b := new Builder(interval);
    for i := 0 to |pairs|
      invariant fresh(b) && b.Valid() && b.pairs == pairs[..i] && |b.buffer| <= RoomFor(pairs[..i])
    {
      RoomOfPart(pairs, i);
      assert pairs[..i + 1] == pairs[..i] + [pairs[i]];
      AddPair(b, pairs[i]);
    }
    assert pairs[..|pairs|] == pairs;
  }

  /** What the builder writes the iterator reads, for all pairs whose block is addressed with 32 bits. */
  method BuildAndRead(interval: nat, pairs: seq<Pair>) returns (data: Bytes, out: seq<Pair>)
    requires interval >= 1 && RoomFor(pairs) < TWO32
    ensures out == pairs && |data| <= RoomFor(pairs) + 4 * |pairs| + 8
  {
    var b := AddAll(interval, pairs);
    PairsTakeRoom(pairs);
    RestartsAreFew(b.buffer, b.restarts, pairs, b.layout, b.interval);
    data := b.Finish();
    out := BlockIter.ReadBlock(data, pairs, b.layout);
  }
}
