/**
 Table blocks: entries with prefix-compressed keys, restart points where compression starts anew, and
 an iterator that moves both ways and searches.
 */
module Block {
  import opened Keys

  type Byte = nat
  type Bytes = seq<Byte>

  datatype Pair = Pair(key: Bytes, value: Bytes)

  // ----- Numbers in bytes -----

  const TWO32: nat := 0x1_0000_0000

  /** Seven bits a byte, low ones first; all bytes but the last have their top bit set. */
  function Varint(n: nat): Bytes {
    if n < 128 then [n] else [128 + n % 128] + Varint(n / 128)
  }

  /** The number at `p`, in at most `max` bytes before `limit`, and the position behind it. */
  function GetVarint(data: Bytes, p: nat, limit: nat, max: nat): Option<(nat, nat)>
    requires limit <= |data|
    decreases limit - p
  {
    if max == 0 || p >= limit then None
    else if data[p] < 128 then Some((data[p], p + 1))
    else match GetVarint(data, p + 1, limit, max - 1)
         case None => None
         case Some((v, q)) => Some((data[p] - 128 + 128 * v, q))
  }

  /** The largest number of `max` groups of seven bits, plus one. */
  function Capacity(max: nat): nat {
    if max == 0 then 1 else 128 * Capacity(max - 1)
  }

  lemma {:induction false} VarintRoundTrip(data: Bytes, p: nat, limit: nat, n: nat, max: nat)
    requires limit <= |data| && p + |Varint(n)| <= limit && data[p..p + |Varint(n)|] == Varint(n)
    requires 0 < max && n < Capacity(max)
    ensures GetVarint(data, p, limit, max) == Some((n, p + |Varint(n)|))
    decreases max
  {
    var v := Varint(n);
    var d := data[p..p + |v|];
    assert data[p] == d[0] == v[0];
    if n >= 128 {
      assert v[1..] == Varint(n / 128);
      assert data[p + 1..p + 1 + |Varint(n / 128)|] == d[1..] == v[1..];
      VarintRoundTrip(data, p + 1, limit, n / 128, max - 1);
    }
  }

  lemma {:induction false} Capacity5()
    ensures TWO32 <= Capacity(5)
  {
    assert Capacity(1) == 128 && Capacity(2) == 16384 && Capacity(3) == 2097152 && Capacity(4) == 268435456;
    assert Capacity(5) == 128 * Capacity(4);
  }

  function Fixed32(n: nat): Bytes {
    [n % 256, n / 256 % 256, n / 65536 % 256, n / 16777216 % 256]
  }

  function GetFixed32(data: Bytes, p: nat): nat
    requires p + 4 <= |data|
  {
    data[p] + 256 * data[p + 1] + 65536 * data[p + 2] + 16777216 * data[p + 3]
  }

  lemma {:induction false} Fixed32RoundTrip(data: Bytes, p: nat, n: nat)
    requires p + 4 <= |data| && data[p..p + 4] == Fixed32(n) && n < TWO32
    ensures GetFixed32(data, p) == n
  {
    var d := data[p..p + 4];
    assert data[p] == d[0] && data[p + 1] == d[1] && data[p + 2] == d[2] && data[p + 3] == d[3];
    assert n / 16777216 % 256 == n / 16777216;
    assert n == n % 256 + 256 * (n / 256) && n / 256 == n / 256 % 256 + 256 * (n / 65536);
    assert n / 65536 == n / 65536 % 256 + 256 * (n / 16777216);
  }

  // ----- One entry -----

  /** An entry whose key shares `shared` bytes with the one before it. */
  function EntryBytes(shared: nat, e: Pair): Bytes
    requires shared <= |e.key|
  {
    Varint(shared) + Varint(|e.key| - shared) + Varint(|e.value|) + e.key[shared..] + e.value
  }

  datatype Decoded = Bad | Decoded(shared: nat, nonShared: nat, valueLength: nat, at: nat)

  function DecodeEntry(data: Bytes, p: nat, limit: nat): Decoded
    requires p <= limit <= |data|
  {
    if limit - p < 3 then Bad
    else if data[p] < 128 && data[p + 1] < 128 && data[p + 2] < 128 then
      if limit - (p + 3) < data[p + 1] + data[p + 2] then Bad else Decoded(data[p], data[p + 1], data[p + 2], p + 3)
    else match GetVarint(data, p, limit, 5)
         case None => Bad
         case Some((shared, q)) =>
           match GetVarint(data, q, limit, 5)
           case None => Bad
           case Some((nonShared, r)) =>
             match GetVarint(data, r, limit, 5)
             case None => Bad
             case Some((valueLength, t)) =>
               if limit < t + nonShared + valueLength then Bad else Decoded(shared, nonShared, valueLength, t)
  }

  lemma {:induction false} VarintsFirst(n: nat)
    ensures |Varint(n)| > 0 && (Varint(n)[0] < 128 <==> n < 128) && (n < 128 ==> Varint(n) == [n])
  {
  }

  /** The number `n` stands at `p` and ends at `end`. */
  ghost predicate NumberAt(data: Bytes, p: nat, end: nat, limit: nat, n: nat) {
    && p < end <= limit <= |data| && GetVarint(data, p, limit, 5) == Some((n, end))
    && if n < 128 then end == p + 1 && data[p] == n else data[p] >= 128
  }

  lemma {:induction false} NumberRoundTrip(data: Bytes, p: nat, limit: nat, n: nat)
    requires limit <= |data| && p + |Varint(n)| <= limit && data[p..p + |Varint(n)|] == Varint(n) && n < TWO32
    ensures NumberAt(data, p, p + |Varint(n)|, limit, n)
  {
    VarintsFirst(n);
    Capacity5();
    VarintRoundTrip(data, p, limit, n, 5);
    assert data[p] == data[p..p + |Varint(n)|][0];
  }

  /** Three numbers in a row, followed by enough bytes. */
  lemma {:induction false} HeaderRoundTrip(data: Bytes, p: nat, limit: nat, x: nat, y: nat, z: nat, p1: nat,
      p2: nat, p3: nat)
    requires NumberAt(data, p, p1, limit, x) && NumberAt(data, p1, p2, limit, y) && NumberAt(data, p2, p3, limit, z)
    requires p3 + y + z <= limit
    ensures DecodeEntry(data, p, limit) == Decoded(x, y, z, p3)
  {
  }

  /** The entry `e`, its key sharing `shared` bytes, stands at `p` and ends at `end`. */
  ghost predicate EntryAt(data: Bytes, p: nat, end: nat, limit: nat, shared: nat, e: Pair)
  {
    && p < end <= limit <= |data| && shared <= |e.key|
    && var d := DecodeEntry(data, p, limit);
    && d.Decoded? && d.shared == shared && d.nonShared == |e.key| - shared && d.valueLength == |e.value|
    && p < d.at && d.at + d.nonShared + d.valueLength == end
    && data[d.at..d.at + d.nonShared] == e.key[shared..] && data[d.at + d.nonShared..end] == e.value
  }

  lemma {:induction false} EntryFromParts(data: Bytes, p: nat, p1: nat, p2: nat, p3: nat, end: nat, limit: nat,
      shared: nat, e: Pair)
    requires shared <= |e.key|
    requires NumberAt(data, p, p1, limit, shared) && NumberAt(data, p1, p2, limit, |e.key| - shared)
    requires NumberAt(data, p2, p3, limit, |e.value|) && p3 + |e.key| - shared + |e.value| == end <= limit
    requires data[p3..p3 + |e.key| - shared] == e.key[shared..] && data[p3 + |e.key| - shared..end] == e.value
    ensures EntryAt(data, p, end, limit, shared, e)
  {
    HeaderRoundTrip(data, p, limit, shared, |e.key| - shared, |e.value|, p1, p2, p3);
  }

  /** Decoding what was encoded, wherever it stands. */
  lemma {:induction false} EntryRoundTrip(data: Bytes, p: nat, limit: nat, shared: nat, e: Pair)
    requires shared <= |e.key| && limit <= |data| && p + |EntryBytes(shared, e)| <= limit
    requires data[p..p + |EntryBytes(shared, e)|] == EntryBytes(shared, e)
    requires |e.key| < TWO32 && |e.value| < TWO32
    ensures EntryAt(data, p, p + |EntryBytes(shared, e)|, limit, shared, e)
  {
    var a, b, c := Varint(shared), Varint(|e.key| - shared), Varint(|e.value|);
    EntryParts(data, p, a, b, c, e.key[shared..], e.value);
    EntryFromBytes(data, p, p + |a|, p + |a| + |b|, p + |a| + |b| + |c|, limit, shared, e);
  }

  lemma {:induction false} EntryFromBytes(data: Bytes, p: nat, p1: nat, p2: nat, p3: nat, limit: nat, shared: nat,
      e: Pair)
    requires shared <= |e.key| < TWO32 && |e.value| < TWO32
    requires p1 == p + |Varint(shared)| && p2 == p1 + |Varint(|e.key| - shared)| && p3 == p2 + |Varint(|e.value|)|
    requires p3 + (|e.key| - shared) + |e.value| <= limit <= |data|
    requires data[p..p1] == Varint(shared) && data[p1..p2] == Varint(|e.key| - shared)
    requires data[p2..p3] == Varint(|e.value|)
    requires data[p3..p3 + (|e.key| - shared)] == e.key[shared..]
    requires data[p3 + (|e.key| - shared)..p3 + (|e.key| - shared) + |e.value|] == e.value
    ensures EntryAt(data, p, p3 + (|e.key| - shared) + |e.value|, limit, shared, e)
  {
    NumbersRoundTrip(data, p, p1, p2, p3, limit, shared, |e.key| - shared, |e.value|);
    EntryFromParts(data, p, p1, p2, p3, p3 + |e.key| - shared + |e.value|, limit, shared, e);
  }

  lemma {:induction false} NumbersRoundTrip(data: Bytes, p: nat, p1: nat, p2: nat, p3: nat, limit: nat, x: nat,
      y: nat, z: nat)
    requires x < TWO32 && y < TWO32 && z < TWO32 && p3 <= limit <= |data|
    requires p1 == p + |Varint(x)| && p2 == p1 + |Varint(y)| && p3 == p2 + |Varint(z)|
    requires data[p..p1] == Varint(x) && data[p1..p2] == Varint(y) && data[p2..p3] == Varint(z)
    ensures NumberAt(data, p, p1, limit, x) && NumberAt(data, p1, p2, limit, y) && NumberAt(data, p2, p3, limit, z)
  {
    NumberRoundTrip(data, p, limit, x);
    NumberRoundTrip(data, p1, limit, y);
    NumberRoundTrip(data, p2, limit, z);
  }

  lemma {:induction false} EntryParts(data: Bytes, p: nat, a: Bytes, b: Bytes, c: Bytes, k: Bytes, v: Bytes)
    requires p + |a + b + c + k + v| <= |data| && data[p..p + |a + b + c + k + v|] == a + b + c + k + v
    ensures var p1 := p + |a|;
            var p2 := p1 + |b|;
            var p3 := p2 + |c|;
            var p4 := p3 + |k|;
            && data[p..p1] == a && data[p1..p2] == b && data[p2..p3] == c
            && data[p3..p4] == k && data[p4..p4 + |v|] == v
  {
    var all := a + b + c + k + v;
    forall i | 0 <= i < |all|
      ensures data[p + i] == all[i]
    {
      assert data[p..p + |all|][i] == data[p + i];
    }
    assert forall i :: 0 <= i < |a| ==> all[i] == a[i];
    assert forall i :: 0 <= i < |b| ==> all[|a| + i] == b[i];
    assert forall i :: 0 <= i < |c| ==> all[|a| + |b| + i] == c[i];
    assert forall i :: 0 <= i < |k| ==> all[|a| + |b| + |c| + i] == k[i];
    assert forall i :: 0 <= i < |v| ==> all[|a| + |b| + |c| + |k| + i] == v[i];
  }

  // ----- The layout of a block -----

  /** Where the entries begin and end, how much of its key each shares, and which ones are restart
      points. */
  datatype Layout = Layout(offs: seq<nat>, shared: seq<nat>, starts: seq<nat>)

  ghost predicate Shaped(pairs: seq<Pair>, l: Layout) {
    && |l.offs| == |pairs| + 1 && |l.shared| == |pairs| && l.offs[0] == 0
    && (forall i :: 0 <= i < |pairs| ==> l.shared[i] <= |pairs[i].key|)
    && (forall i, j :: 0 <= i < |pairs| && j == i + 1 ==> l.offs[i] < l.offs[j])
    && (forall i, j :: 0 <= i < |pairs| && j == i + 1 && j < |pairs| ==>
          SharesPrefix(pairs[i].key, pairs[j].key, l.shared[j]))
  }

  ghost predicate SharesPrefix(a: Bytes, b: Bytes, n: nat) {
    n <= |a| && n <= |b| && a[..n] == b[..n]
  }

  /** The restart points: the first entry, and others in order, none of which shares anything. */
  ghost predicate StartsOk(pairs: seq<Pair>, l: Layout)
    requires Shaped(pairs, l)
  {
    && InOrder(l.starts, |pairs|)
    && forall r :: 0 <= r < |l.starts| && l.starts[r] < |pairs| ==> l.shared[l.starts[r]] == 0
  }

  ghost predicate InOrder(starts: seq<nat>, n: nat) {
    && starts != [] && starts[0] == 0
    && (forall r :: 0 < r < |starts| ==> starts[r] < n)
    && (forall r, s :: 0 <= r < s < |starts| ==> starts[r] < starts[s])
  }

  /** `n` is the length of the longest common prefix. */
  ghost predicate SharesMost(a: Bytes, b: Bytes, n: nat) {
    SharesPrefix(a, b, n) && (n < |a| && n < |b| ==> a[n] != b[n])
  }

  /** A restart point after every `interval` of the `n` entries. */
  ghost predicate Spaced(starts: seq<nat>, n: nat, interval: nat) {
    && starts != [] && starts[0] == 0
    && (forall r, q :: 0 <= r && q == r + 1 && q < |starts| ==> starts[q] == starts[r] + interval)
    && starts[|starts| - 1] <= n <= starts[|starts| - 1] + interval
  }

  /** Between restart points each key shares all it can with the one before it. */
  ghost predicate Compressed(pairs: seq<Pair>, l: Layout)
    requires Shaped(pairs, l)
  {
    forall i, j :: 0 <= i < |pairs| && j == i + 1 && j < |pairs| && j !in l.starts ==>
      SharesMost(pairs[i].key, pairs[j].key, l.shared[j])
  }

  /** Names the entries that proofs look at. */
  predicate LooksAt(i: nat) {
    true
  }

  /** A finished block. */
  ghost predicate Laid(data: Bytes, restarts: nat, pairs: seq<Pair>, l: Layout) {
    && Shaped(pairs, l) && StartsOk(pairs, l)
    && l.offs[|pairs|] == restarts && restarts + 4 * |l.starts| + 4 == |data|
    && (forall i {:trigger LooksAt(i)} :: 0 <= i < |pairs| ==>
          EntryAt(data, l.offs[i], l.offs[i + 1], restarts, l.shared[i], pairs[i]))
    && (forall r {:trigger l.starts[r]} :: 0 <= r < |l.starts| ==> RestartAt(data, restarts, r) == l.offs[l.starts[r]])
    && GetFixed32(data, restarts + 4 * |l.starts|) == |l.starts|
  }

  function RestartAt(data: Bytes, restarts: nat, r: nat): nat
    requires restarts + 4 * r + 4 <= |data|
  {
    GetFixed32(data, restarts + 4 * r)
  }

  lemma {:induction false} OffsAscend(pairs: seq<Pair>, l: Layout, i: nat, j: nat)
    requires Shaped(pairs, l) && i < j <= |pairs|
    ensures l.offs[i] < l.offs[j]
  {
    if i + 1 < j {
      OffsAscend(pairs, l, i, j - 1);
    }
  }

  // ----- The builder -----

  /** The restart array. */
  function RestartBytes(restarts: seq<nat>): Bytes {
    if restarts == [] then [] else RestartBytes(restarts[..|restarts| - 1]) + Fixed32(restarts[|restarts| - 1])
  }

  lemma {:induction false} RestartBytesAt(restarts: seq<nat>, r: nat)
    requires r < |restarts|
    ensures |RestartBytes(restarts)| == 4 * |restarts|
    ensures RestartBytes(restarts)[4 * r..4 * r + 4] == Fixed32(restarts[r])
  {
    var n := |restarts| - 1;
    if n > 0 {
      RestartBytesAt(restarts[..n], if r < n then r else 0);
    }
    var head, all := RestartBytes(restarts[..n]), RestartBytes(restarts);
    assert r < n ==> all[4 * r..4 * r + 4] == head[4 * r..4 * r + 4];
  }

  /** The bytes of an entry stand in the buffer. */
  ghost predicate Holds(buffer: Bytes, p: nat, end: nat, shared: nat, e: Pair) {
    && p <= end <= |buffer| && shared <= |e.key| < TWO32 && |e.value| < TWO32
    && buffer[p..end] == EntryBytes(shared, e)
  }

  ghost predicate AllHeld(buffer: Bytes, pairs: seq<Pair>, l: Layout)
    requires Shaped(pairs, l)
  {
    forall i {:trigger LooksAt(i)} :: 0 <= i < |pairs| ==>
      Holds(buffer, l.offs[i], l.offs[i + 1], l.shared[i], pairs[i])
  }

  /** The restart array names the offsets of the restart points. */
  ghost predicate Names(restarts: seq<nat>, pairs: seq<Pair>, l: Layout)
    requires Shaped(pairs, l) && StartsOk(pairs, l)
  {
    && |restarts| == |l.starts|
    && forall r :: 0 <= r < |restarts| ==> l.starts[r] <= |pairs| && restarts[r] == l.offs[l.starts[r]]
  }

  ghost predicate Consistent(buffer: Bytes, restarts: seq<nat>, pairs: seq<Pair>, l: Layout, interval: nat) {
    && Shaped(pairs, l) && StartsOk(pairs, l) && Spaced(l.starts, |pairs|, interval) && Compressed(pairs, l)
    && AllHeld(buffer, pairs, l) && Names(restarts, pairs, l) && l.offs[|pairs|] == |buffer|
  }

  /** The counter is the number of entries since the last restart point. */
  ghost predicate CounterOk(counter: nat, pairs: seq<Pair>, l: Layout, interval: nat) {
    l.starts != [] && counter <= interval && l.starts[|l.starts| - 1] + counter == |pairs|
  }

  lemma {:induction false} FinishedIsLaid(data: Bytes, buffer: Bytes, restarts: seq<nat>, pairs: seq<Pair>, l: Layout)
    requires Shaped(pairs, l) && StartsOk(pairs, l) && AllHeld(buffer, pairs, l) && Names(restarts, pairs, l)
    requires l.offs[|pairs|] == |buffer| < TWO32 && |restarts| < TWO32
    requires data == buffer + RestartBytes(restarts) + Fixed32(|restarts|)
    ensures Laid(data, |buffer|, pairs, l)
  {
    RestartBytesAt(restarts, 0);
    forall i | 0 <= i < |pairs|
      ensures EntryAt(data, l.offs[i], l.offs[i + 1], |buffer|, l.shared[i], pairs[i])
    {
      assert LooksAt(i);
      HeldIsEntry(data, buffer, l.offs[i], l.offs[i + 1], l.shared[i], pairs[i]);
    }
    forall r | 0 <= r < |restarts|
      ensures RestartAt(data, |buffer|, r) == l.offs[l.starts[r]]
    {
      if l.starts[r] < |pairs| {
        OffsAscend(pairs, l, l.starts[r], |pairs|);
      }
      RestartReadBack(data, buffer, restarts, r);
    }
    var p := |buffer| + 4 * |restarts|;
    assert data[p..p + 4] == Fixed32(|restarts|);
    Fixed32RoundTrip(data, p, |restarts|);
  }

  lemma {:induction false} HeldIsEntry(data: Bytes, buffer: Bytes, p: nat, end: nat, shared: nat, e: Pair)
    requires Holds(buffer, p, end, shared, e) && |buffer| <= |data| && data[..|buffer|] == buffer
    ensures EntryAt(data, p, end, |buffer|, shared, e)
  {
    forall k | 0 <= k < end - p
      ensures data[p..end][k] == buffer[p..end][k]
    {
      assert data[..|buffer|][p + k] == buffer[p + k];
    }
    assert end == p + |EntryBytes(shared, e)|;
    EntryRoundTrip(data, p, |buffer|, shared, e);
  }

  lemma {:induction false} RestartReadBack(data: Bytes, buffer: Bytes, restarts: seq<nat>, r: nat)
    requires r < |restarts| && restarts[r] < TWO32
    requires data == buffer + RestartBytes(restarts) + Fixed32(|restarts|)
    ensures |RestartBytes(restarts)| == 4 * |restarts| && RestartAt(data, |buffer|, r) == restarts[r]
  {
    RestartBytesAt(restarts, r);
    var p := |buffer| + 4 * r;
    assert data[p..p + 4] == RestartBytes(restarts)[4 * r..4 * r + 4];
    Fixed32RoundTrip(data, p, restarts[r]);
  }

  /** What one more entry does to the buffer, the restart array and the counter. */
  lemma {:induction false} Grow(was: Bytes, now: Bytes, restarts: seq<nat>, counter: nat, pairs: seq<Pair>, l: Layout,
      e: Pair, shared: nat, interval: nat)
    requires Consistent(was, restarts, pairs, l, interval) && CounterOk(counter, pairs, l, interval) && interval >= 1
    requires if counter < interval then SharesMost(LastKey(pairs), e.key, shared) else shared == 0
    requires now == was + EntryBytes(shared, e) && |e.key| < TWO32 && |e.value| < TWO32
    ensures var ps, g := pairs + [e], Grown(l, shared, |now|, |pairs|, counter >= interval);
            && Consistent(now, if counter < interval then restarts else restarts + [|was|], ps, g, interval)
            && CounterOk((if counter < interval then counter else 0) + 1, ps, g, interval)
  {
    var restart := counter >= interval;
    EntryIsLong(shared, e);
    GrowShaped(pairs, l, e, shared, |now|, restart);
    GrowStarts(pairs, l, e, shared, |now|, restart);
    GrowSpaced(l.starts, |pairs|, restart, interval);
    GrowCompressed(pairs, l, e, shared, |now|, restart);
    GrowHeld(was, now, pairs, l, e, shared, restart);
    GrowNames(restarts, pairs, l, e, shared, |now|, restart);
  }

  function LastKey(pairs: seq<Pair>): Bytes {
    if pairs == [] then [] else pairs[|pairs| - 1].key
  }

  lemma {:induction false} EntryIsLong(shared: nat, e: Pair)
    requires shared <= |e.key|
    ensures |EntryBytes(shared, e)| > 0
  {
    VarintsFirst(shared);
  }

  /** The layout with one more entry, ending at `end`; `restart` tells whether it is a restart point. */
  function Grown(l: Layout, shared: nat, end: nat, n: nat, restart: bool): Layout {
    Layout(l.offs + [end], l.shared + [shared], if restart then l.starts + [n] else l.starts)
  }

  lemma {:induction false} GrowShaped(pairs: seq<Pair>, l: Layout, e: Pair, shared: nat, end: nat, restart: bool)
    requires Shaped(pairs, l) && l.offs[|pairs|] < end && SharesPrefix(LastKey(pairs), e.key, shared)
    ensures Shaped(pairs + [e], Grown(l, shared, end, |pairs|, restart))
  {
    var ps, g := pairs + [e], Grown(l, shared, end, |pairs|, restart);
    forall i, j | 0 <= i < |ps| && j == i + 1
      ensures g.offs[i] < g.offs[j] && (j < |ps| ==> SharesPrefix(ps[i].key, ps[j].key, g.shared[j]))
    {
      assert j < |pairs| ==> SharesPrefix(pairs[i].key, pairs[j].key, l.shared[j]);
    }
  }

  lemma {:induction false} GrowStarts(pairs: seq<Pair>, l: Layout, e: Pair, shared: nat, end: nat, restart: bool)
    requires Shaped(pairs, l) && StartsOk(pairs, l) && SharesPrefix(LastKey(pairs), e.key, shared)
    requires restart ==> shared == 0 && l.starts[|l.starts| - 1] < |pairs|
    requires Shaped(pairs + [e], Grown(l, shared, end, |pairs|, restart))
    ensures StartsOk(pairs + [e], Grown(l, shared, end, |pairs|, restart))
  {
    GrowInOrder(l.starts, |pairs|, restart);
    var g := Grown(l, shared, end, |pairs|, restart);
    forall r | 0 <= r < |g.starts| && g.starts[r] <= |pairs|
      ensures g.shared[g.starts[r]] == 0
    {
      if r < |l.starts| && l.starts[r] < |pairs| {
        assert l.shared[l.starts[r]] == 0;
      } else if !restart {
        assert pairs == [];
      }
    }
  }

  lemma {:induction false} GrowInOrder(starts: seq<nat>, n: nat, restart: bool)
    requires InOrder(starts, n) && (restart ==> starts[|starts| - 1] < n)
    ensures InOrder(if restart then starts + [n] else starts, n + 1)
  {
    assert forall r :: 0 <= r < |starts| - 1 ==> starts[r] < starts[|starts| - 1];
  }

  lemma {:induction false} GrowSpaced(starts: seq<nat>, n: nat, restart: bool, interval: nat)
    requires Spaced(starts, n, interval) && interval >= 1
    requires restart <==> n == starts[|starts| - 1] + interval
    ensures Spaced(if restart then starts + [n] else starts, n + 1, interval)
  {
  }

  lemma {:induction false} GrowCompressed(pairs: seq<Pair>, l: Layout, e: Pair, shared: nat, end: nat, restart: bool)
    requires Shaped(pairs, l) && Compressed(pairs, l)
    requires restart || SharesMost(LastKey(pairs), e.key, shared)
    requires Shaped(pairs + [e], Grown(l, shared, end, |pairs|, restart))
    ensures Compressed(pairs + [e], Grown(l, shared, end, |pairs|, restart))
  {
    var ps, g := pairs + [e], Grown(l, shared, end, |pairs|, restart);
    forall i, j | 0 <= i < |ps| && j == i + 1 && j < |ps| && j !in g.starts
      ensures SharesMost(ps[i].key, ps[j].key, g.shared[j])
    {
      assert j !in l.starts;
      if j < |pairs| {
        assert SharesMost(pairs[i].key, pairs[j].key, l.shared[j]);
      } else {
        assert restart ==> j in g.starts;
      }
    }
  }

  lemma {:induction false} GrowHeld(was: Bytes, now: Bytes, pairs: seq<Pair>, l: Layout, e: Pair, shared: nat,
      restart: bool)
    requires Shaped(pairs, l) && AllHeld(was, pairs, l) && l.offs[|pairs|] == |was| && shared <= |e.key|
    requires now == was + EntryBytes(shared, e) && |e.key| < TWO32 && |e.value| < TWO32
    requires Shaped(pairs + [e], Grown(l, shared, |now|, |pairs|, restart))
    ensures AllHeld(now, pairs + [e], Grown(l, shared, |now|, |pairs|, restart))
  {
    var ps, g := pairs + [e], Grown(l, shared, |now|, |pairs|, restart);
    forall i | 0 <= i < |ps|
      ensures Holds(now, g.offs[i], g.offs[i + 1], g.shared[i], ps[i])
    {
      if i < |pairs| {
        assert LooksAt(i);
        assert Holds(was, l.offs[i], l.offs[i + 1], l.shared[i], pairs[i]);
        assert now[l.offs[i]..l.offs[i + 1]] == was[l.offs[i]..l.offs[i + 1]];
      } else {
        assert now[|was|..|now|] == EntryBytes(shared, e);
      }
    }
  }

  lemma {:induction false} GrowNames(restarts: seq<nat>, pairs: seq<Pair>, l: Layout, e: Pair, shared: nat,
      end: nat, restart: bool)
    requires Shaped(pairs, l) && StartsOk(pairs, l) && Names(restarts, pairs, l)
    requires Shaped(pairs + [e], Grown(l, shared, end, |pairs|, restart))
    requires StartsOk(pairs + [e], Grown(l, shared, end, |pairs|, restart))
    ensures Names(if restart then restarts + [l.offs[|pairs|]] else restarts, pairs + [e],
                  Grown(l, shared, end, |pairs|, restart))
  {
  }
}
