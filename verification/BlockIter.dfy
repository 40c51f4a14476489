/**
 The iterator of a table block.
 */
module BlockIter {
  import opened Keys
  import opened Block

  type Order = (Bytes, Bytes) -> bool

  ghost predicate TotalOrder(less: Order) {
    && (forall a :: !less(a, a))
    && (forall a, b, c :: less(a, b) && less(b, c) ==> less(a, c))
    && forall a, b :: a == b || less(a, b) || less(b, a)
  }

  ghost predicate KeysAscend(less: Order, pairs: seq<Pair>) {
    forall a, b :: 0 <= a < b < |pairs| ==> less(pairs[a].key, pairs[b].key)
  }

  /** The first `n` keys are below `target`. */
  ghost predicate BelowTarget(less: Order, pairs: seq<Pair>, n: nat, target: Bytes) {
    forall k :: 0 <= k < n && k < |pairs| ==> less(pairs[k].key, target)
  }

  lemma {:induction false} KeyBelow(less: Order, pairs: seq<Pair>, i: nat, target: Bytes)
    requires TotalOrder(less) && KeysAscend(less, pairs) && i < |pairs| && less(pairs[i].key, target)
    ensures BelowTarget(less, pairs, i + 1, target)
  {
  }

  /** What the moves of the iterator keep in mind about the block. */
  ghost predicate Starts(l: Layout, r: nat, i: nat) {
    r < |l.starts| && l.starts[r] <= i && (r + 2 < |l.starts| ==> i <= l.starts[r + 2])
  }

  class Iter {
    const data: Bytes
    const restarts: nat
    const num: nat
    ghost const pairs: seq<Pair>
    ghost const layout: Layout

    var current: nat
    var restartIndex: nat
    var key: Bytes
    var valueAt: nat
    var valueLength: nat

    ghost predicate Rep() {
      Laid(data, restarts, pairs, layout) && num == |layout.starts|
    }

    /** ParseNextKey will come upon entry `next`. */
    ghost predicate Ready(next: nat)
      requires Rep()
      reads this
    {
      && next <= |pairs| && valueAt + valueLength == layout.offs[next]
      && (next < |pairs| ==> SharesPrefix(key, pairs[next].key, layout.shared[next]))
    }

    /** The iterator stands on entry `i`, or is not valid when there is none; its restart index lags
        behind the entry's by one at most. */
    ghost predicate At(i: nat)
      requires Rep()
      reads this
    {
      && i <= |pairs|
      && if i == |pairs| then current == restarts && restartIndex == num
         else && current == layout.offs[i] && key == pairs[i].key
              && valueAt + valueLength == layout.offs[i + 1] <= |data|
              && data[valueAt..valueAt + valueLength] == pairs[i].value
              && restartIndex < num && layout.starts[restartIndex] <= i
              && (restartIndex + 2 < num ==> i < layout.starts[restartIndex + 2])
    }

    constructor (d: Bytes, limit: nat, n: nat, ghost ps: seq<Pair>, ghost l: Layout)
      requires Laid(d, limit, ps, l) && n == |l.starts|
      ensures Rep() && At(|pairs|) && data == d && pairs == ps && layout == l
    {
      data, restarts, num, pairs, layout := d, limit, n, ps, l;
      current, restartIndex := limit, n;
      key, valueAt, valueLength := [], 0, 0;
    }

    predicate Valid()
      reads this
    {
      current < restarts
    }

    function NextEntryOffset(): nat
      reads this
    {
      valueAt + valueLength
    }

    /** Standing on an entry is being valid. */
    lemma {:induction false} AtIsValid(i: nat)
      requires Rep() && At(i)
      ensures Valid() <==> i < |pairs|
    {
      if i < |pairs| {
        OffsAscend(pairs, layout, i, |pairs|);
      }
    }

    method GetRestartPoint(index: nat) returns (offset: nat)
      requires Rep() && index < num
      ensures offset == layout.offs[layout.starts[index]]
    {
      assert layout.starts[index] <= |pairs|;
      offset := RestartAt(data, restarts, index);
    }

    method SeekToRestartPoint(index: nat)
      requires Rep() && index < num
      modifies this`key, this`restartIndex, this`valueAt, this`valueLength
      ensures Ready(layout.starts[index]) && restartIndex == index
    {
      key := [];
      restartIndex := index;
      valueAt := GetRestartPoint(index);
      valueLength := 0;
    }

    /** Decodes entry `i`. */
    method Decode(p: nat, ghost i: nat) returns (d: Decoded)
      requires Rep() && i < |pairs| && p == layout.offs[i]
      ensures d.Decoded? && d.shared == layout.shared[i] <= |pairs[i].key| && d.nonShared == |pairs[i].key| - d.shared
      ensures d.at + d.nonShared + d.valueLength == layout.offs[i + 1] <= |data|
      ensures data[d.at..d.at + d.nonShared] == pairs[i].key[d.shared..]
      ensures data[d.at + d.nonShared..layout.offs[i + 1]] == pairs[i].value
    {
      assert LooksAt(i);
      d := DecodeEntry(data, p, restarts);
    }

    /** The restart index moves up to the last restart point before the entry. */
    method CatchUp(ghost i: nat)
      requires Rep() && i < |pairs| && current == layout.offs[i]
      requires restartIndex < num && layout.starts[restartIndex] <= i
      modifies this`restartIndex
      ensures restartIndex < num && layout.starts[restartIndex] <= i
      ensures restartIndex + 1 < num ==> i <= layout.starts[restartIndex + 1]
    {
      while restartIndex + 1 < num
        invariant restartIndex < num && layout.starts[restartIndex] <= i
        decreases num - restartIndex
      {
        var offset := GetRestartPoint(restartIndex + 1);
        OffsCompare(pairs, layout, layout.starts[restartIndex + 1], i);
        if offset >= current {
          return;
        }
        restartIndex := restartIndex + 1;
      }
    }

    /** Puts the key of entry `i` together. */
    method TakeKey(shared: nat, rest: Bytes, ghost i: nat)
      requires Rep() && i < |pairs| && current == layout.offs[i] && Starts(layout, restartIndex, i)
      requires shared == layout.shared[i] && SharesPrefix(key, pairs[i].key, shared) && rest == pairs[i].key[shared..]
      modifies this`key, this`restartIndex
      ensures key == pairs[i].key && restartIndex < num && layout.starts[restartIndex] <= i
      ensures restartIndex + 2 < num ==> i < layout.starts[restartIndex + 2]
    {
      if shared == 0 {
        key := rest;
        CatchUp(i);
        StartsApart(pairs, layout, restartIndex);
      } else {
        key := key[..shared] + rest;
        NotAStart(pairs, layout, restartIndex, i);
      }
    }

    method ParseNextKey(ghost next: nat) returns (ok: bool)
      requires Rep() && Ready(next) && Starts(layout, restartIndex, next)
      modifies this
      ensures At(next) && ok == (next < |pairs|)
    {
      current := NextEntryOffset();
      OffsCompare(pairs, layout, next, |pairs|);
      if current >= restarts {
        current := restarts;
        restartIndex := num;
        return false;
      }
      var d := Decode(current, next);
      TakeKey(d.shared, data[d.at..d.at + d.nonShared], next);
      valueAt, valueLength := d.at + d.nonShared, d.valueLength;
      ok := true;
    }

    /** The entry behind the one the iterator stands on can be parsed next. */
    lemma {:induction false} AtIsReady(i: nat)
      requires Rep() && At(i) && i < |pairs|
      ensures Ready(i + 1) && Starts(layout, restartIndex, i + 1)
    {
      assert i + 1 < |pairs| ==> SharesPrefix(pairs[i].key, pairs[i + 1].key, layout.shared[i + 1]);
    }

    method Current(ghost i: nat) returns (p: Pair)
      requires Rep() && At(i) && Valid()
      ensures i < |pairs| && p == pairs[i]
    {
      AtIsValid(i);
      p := Pair(key, data[valueAt..valueAt + valueLength]);
    }

    method Next(ghost i: nat)
      requires Rep() && At(i) && Valid()
      modifies this
      ensures i < |pairs| && At(i + 1)
    {
      AtIsValid(i);
      AtIsReady(i);
      var ok := ParseNextKey(i + 1);
    }

    /** Everything from the first entry on. */
    method Collect() returns (out: seq<Pair>)
      requires Rep() && At(0)
      modifies this
      ensures out == pairs
    {
      out := [];
      while Valid()
        invariant |out| <= |pairs| && At(|out|) && out == pairs[..|out|]
        decreases |pairs| - |out|
      {
        var p := Current(|out|);
        Next(|out|);
        out := out + [p];
      }
      AtIsValid(|out|);
    }

    method SeekToFirst()
      requires Rep()
      modifies this
      ensures At(0)
    {
      SeekToRestartPoint(0);
      var ok := ParseNextKey(0);
    }

    /** Parses on from `from` until the next entry would begin at `stop`, the offset of entry `stopAt`. */
    method ParseUntil(stop: nat, ghost from: nat, ghost stopAt: nat)
      requires Rep() && Ready(from) && Starts(layout, restartIndex, from)
      requires stopAt <= |pairs| && stop == layout.offs[stopAt]
      requires from < stopAt || from == stopAt == |pairs|
      modifies this
      ensures At(if from < stopAt then stopAt - 1 else stopAt)
    {
      ghost var i: nat := from;
      var ok := ParseNextKey(i);
      if !ok {
        return;
      }
      while ok && NextEntryOffset() < stop
        invariant At(i) && ok && from <= i < stopAt
        decreases stopAt - i
      {
        NextOffset(i, stopAt);
        AtIsReady(i);
        i := i + 1;
        ok := ParseNextKey(i);
      }
      NextOffset(i, stopAt);
    }

    lemma {:induction false} NextOffset(i: nat, stopAt: nat)
      requires Rep() && At(i) && i < |pairs| && stopAt <= |pairs|
      ensures NextEntryOffset() < layout.offs[stopAt] <==> i + 1 < stopAt
    {
      OffsCompare(pairs, layout, i + 1, stopAt);
    }

    method SeekToLast()
      requires Rep()
      modifies this
      ensures At(if pairs == [] then 0 else |pairs| - 1)
    {
      SeekToRestartPoint(num - 1);
      ParseUntil(restarts, layout.starts[num - 1], |pairs|);
    }

    method Prev(ghost i: nat)
      requires Rep() && At(i) && Valid()
      modifies this
      ensures i < |pairs| && At(if i == 0 then |pairs| else i - 1)
    {
      AtIsValid(i);
      var original := current;
      var offset := GetRestartPoint(restartIndex);
      while offset >= original
        invariant restartIndex < num && layout.starts[restartIndex] <= i && original == layout.offs[i]
        invariant offset == layout.offs[layout.starts[restartIndex]]
        decreases restartIndex
      {
        OffsCompare(pairs, layout, layout.starts[restartIndex], i);
        if restartIndex == 0 {
          current := restarts;
          restartIndex := num;
          return;
        }
        restartIndex := restartIndex - 1;
        assert layout.starts[restartIndex] < layout.starts[restartIndex + 1];
        offset := GetRestartPoint(restartIndex);
      }
      OffsCompare(pairs, layout, layout.starts[restartIndex], i);
      SeekToRestartPoint(restartIndex);
      ParseUntil(original, layout.starts[restartIndex], i);
    }

    /** The key at a restart point other than the first. */
    method RestartKey(index: nat) returns (k: Bytes)
      requires Rep() && 0 < index < num
      ensures layout.starts[index] < |pairs| && k == pairs[layout.starts[index]].key
    {
      var offset := GetRestartPoint(index);
      var d := Decode(offset, layout.starts[index]);
      k := data[d.at..d.at + d.nonShared];
    }

    /** The last restart point whose key is below the target, as far as the bounds tell. */
    method BinarySearch(less: Order, target: Bytes, from: nat, to: nat) returns (left: nat)
      requires Rep() && TotalOrder(less) && KeysAscend(less, pairs) && from < num && to < num
      requires BelowTarget(less, pairs, layout.starts[from], target)
      ensures left < num && (left == from || from < left <= to) && BelowTarget(less, pairs, layout.starts[left], target)
    {
      left := from;
      var right: int := to;
      while left < right
        invariant left < num && right <= to && (left == from || from < left <= to)
        invariant BelowTarget(less, pairs, layout.starts[left], target)
        decreases right - left
      {
        var mid := (left + right + 1) / 2;
        var k := RestartKey(mid);
        if less(k, target) {
          left := mid;
          KeyBelow(less, pairs, layout.starts[mid], target);
        } else {
          right := mid - 1;
        }
      }
    }

    /** Parses on until a key is not below the target. */
    method Scan(less: Order, target: Bytes, ghost from: nat) returns (ghost i: nat)
      requires Rep() && Ready(from) && Starts(layout, restartIndex, from) && BelowTarget(less, pairs, from, target)
      modifies this
      ensures At(i) && BelowTarget(less, pairs, i, target) && (i < |pairs| ==> !less(pairs[i].key, target))
    {
      i := from;
      var ok := ParseNextKey(i);
      while ok && less(key, target)
        invariant At(i) && ok == (i < |pairs|) && BelowTarget(less, pairs, i, target)
        decreases |pairs| - i
      {
        AtIsReady(i);
        ok := ParseNextKey(i + 1);
        i := i + 1;
      }
    }

    /** The current position narrows the search down to the restart points from `left` to `right`, or is
        the answer already. */
    method Narrow(less: Order, target: Bytes, ghost at: nat)
        returns (found: bool, below: bool, left: nat, right: nat)
      requires Rep() && At(at) && TotalOrder(less) && KeysAscend(less, pairs)
      ensures found ==> BelowTarget(less, pairs, at, target) && at < |pairs| && !less(pairs[at].key, target)
      ensures !found ==> left < num && right < num && BelowTarget(less, pairs, layout.starts[left], target)
      ensures !found && below ==> at < |pairs| && BelowTarget(less, pairs, at + 1, target)
    {
      AtIsValid(at);
      found, below, left, right := false, false, 0, num - 1;
      if Valid() {
        if less(key, target) {
          left := restartIndex;
          below := true;
          KeyBelow(less, pairs, at, target);
        } else if less(target, key) {
          right := restartIndex;
        } else {
          assert forall k :: 0 <= k < at ==> less(pairs[k].key, pairs[at].key);
          found := true;
        }
      }
    }

    /** From any state, lands on the first entry whose key is not below the target. */
    method Seek(less: Order, target: Bytes, ghost at: nat) returns (ghost i: nat)
      requires Rep() && At(at) && TotalOrder(less) && KeysAscend(less, pairs)
      modifies this
      ensures At(i) && BelowTarget(less, pairs, i, target) && (i < |pairs| ==> !less(pairs[i].key, target))
    {
      var found, below, left, right := Narrow(less, target, at);
      if found {
        return at;
      }
      left := BinarySearch(less, target, left, right);
      i := ScanFrom(less, target, left, below, at);
    }

    /** Goes on from the current entry if it is in the right stretch, and from a restart point if not. */
    method ScanFrom(less: Order, target: Bytes, left: nat, below: bool, ghost at: nat) returns (ghost i: nat)
      requires Rep() && At(at) && left < num && BelowTarget(less, pairs, layout.starts[left], target)
      requires below ==> at < |pairs| && BelowTarget(less, pairs, at + 1, target)
      modifies this
      ensures At(i) && BelowTarget(less, pairs, i, target) && (i < |pairs| ==> !less(pairs[i].key, target))
    {
      if left == restartIndex && below {
        AtIsReady(at);
        i := Scan(less, target, at + 1);
      } else {
        SeekToRestartPoint(left);
        i := Scan(less, target, layout.starts[left]);
      }
    }
  }

  /** Opening a block: the trailer tells how many restart points there are and where their array is. */
  method Open(data: Bytes, ghost pairs: seq<Pair>, ghost l: Layout) returns (restarts: nat, num: nat)
    requires exists limit :: Laid(data, limit, pairs, l)
    ensures Laid(data, restarts, pairs, l) && num == |l.starts|
  {
    num := GetFixed32(data, |data| - 4);
    restarts := |data| - (1 + num) * 4;
  }

  /** Iterating over a block yields the pairs it was built from. */
  method ReadBlock(data: Bytes, ghost pairs: seq<Pair>, ghost l: Layout) returns (out: seq<Pair>)
    requires exists limit :: Laid(data, limit, pairs, l)
    ensures out == pairs
  {
    var restarts, num := Open(data, pairs, l);
    var iter := new Iter(data, restarts, num, pairs, l);
    iter.SeekToFirst();
    out := iter.Collect();
  }

  lemma {:induction false} OffsCompare(pairs: seq<Pair>, l: Layout, i: nat, j: nat)
    requires Shaped(pairs, l) && i <= |pairs| && j <= |pairs|
    ensures l.offs[i] < l.offs[j] <==> i < j
  {
    if i < j {
      OffsAscend(pairs, l, i, j);
    } else if j < i {
      OffsAscend(pairs, l, j, i);
    }
  }

  lemma {:induction false} StartsApart(pairs: seq<Pair>, l: Layout, r: nat)
    requires Shaped(pairs, l) && StartsOk(pairs, l)
    ensures r + 2 < |l.starts| ==> l.starts[r + 1] < l.starts[r + 2]
  {
  }

  /** An entry that shares something is not a restart point. */
  lemma {:induction false} NotAStart(pairs: seq<Pair>, l: Layout, r: nat, i: nat)
    requires Shaped(pairs, l) && StartsOk(pairs, l) && i < |pairs| && l.shared[i] != 0
    ensures r + 2 < |l.starts| ==> i != l.starts[r + 2]
  {
  }
}
