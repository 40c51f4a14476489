/**
 Splitting one compaction into several: how the ranges are chosen, which entries each of them takes
 from the merged input, and what they write together.
 */
module Subcompaction {
  import opened Keys
  import opened ReadSets
  import Merge

  // ----- Which entries a range takes -----

  /** How many of the first `n` entries, from the front, have user keys below `k`. */
  function LeadingBelow(es: seq<Entry>, k: UserKey, i: nat): (r: nat)
    requires i <= |es|
    ensures i <= r <= |es| && (r < |es| ==> es[r].key.user >= k)
    ensures forall j :: i <= j < r ==> es[j].key.user < k
    decreases |es| - i
  {
    if i < |es| && es[i].key.user < k then LeadingBelow(es, k, i + 1) else i
  }

  ghost predicate Present(es: seq<Entry>, k: UserKey) {
    exists e :: e in es && e.key.user == k
  }

  /** Seek to the lower boundary and step over one entry, then take entries up to and including the first
      one at or behind the upper boundary. */
  method Take(es: seq<Entry>, start: Option<UserKey>, end: Option<UserKey>) returns (from: nat, upto: nat)
    requires Sorted(es) && (start.Some? ==> Present(es, start.value))
    ensures from == (if start.Some? then Behind(es, start.value) else 0) <= upto <= |es|
    ensures match end
            case None => upto == |es|
            case Some(k) => upto == (if LeadingBelow(es, k, from) < |es| then LeadingBelow(es, k, from) + 1 else |es|)
  {
    from := 0;
    if start.Some? {
      while from < |es| && es[from].key.user < start.value
        invariant from <= |es| && LeadingBelow(es, start.value, 0) == LeadingBelow(es, start.value, from)
      {
        from := from + 1;
      }
      assert from < |es|;
      from := from + 1;
    }
    upto := from;
    while upto < |es|
      invariant from <= upto <= |es|
      invariant end.Some? ==> LeadingBelow(es, end.value, from) == LeadingBelow(es, end.value, upto)
    {
      if end.Some? && es[upto].key.user >= end.value {
        return from, upto + 1;
      }
      upto := upto + 1;
    }
  }

  /** The boundary key's first entry is that of the range below. */
  lemma {:induction false} CutIsAtKey(es: seq<Entry>, k: UserKey)
    requires Sorted(es) && Present(es, k)
    ensures LeadingBelow(es, k, 0) < |es| && es[LeadingBelow(es, k, 0)].key.user == k
  {
    var n := LeadingBelow(es, k, 0);
    var e :| e in es && e.key.user == k;
    var j :| 0 <= j < |es| && es[j] == e;
    if n < j {
      SortedFacts(es, n, j);
    }
  }

  /** From a lower boundary on, the first entry at a larger one is the first of all. */
  lemma {:induction false} SameCut(es: seq<Entry>, a: UserKey, b: UserKey)
    requires Sorted(es) && Present(es, a) && a < b
    ensures LeadingBelow(es, a, 0) + 1 <= LeadingBelow(es, b, 0) == LeadingBelow(es, b, LeadingBelow(es, a, 0) + 1)
  {
    CutIsAtKey(es, a);
    var n := LeadingBelow(es, a, 0);
    forall j | 0 <= j <= n
      ensures es[j].key.user < b
    {
    }
    SkipBelow(es, b, 0, n + 1);
  }

  lemma {:induction false} SkipBelow(es: seq<Entry>, k: UserKey, i: nat, j: nat)
    requires i <= j <= |es| && forall m :: i <= m < j ==> es[m].key.user < k
    ensures LeadingBelow(es, k, i) == LeadingBelow(es, k, j)
    decreases j - i
  {
    if i < j {
      SkipBelow(es, k, i + 1, j);
    }
  }

  function Flatten(parts: seq<seq<Entry>>): seq<Entry> {
    if parts == [] then [] else Flatten(parts[..|parts| - 1]) + parts[|parts| - 1]
  }

  ghost predicate BoundsOk(es: seq<Entry>, bounds: seq<UserKey>) {
    && (forall i :: 0 <= i < |bounds| ==> Present(es, bounds[i]))
    && forall i, j :: 0 <= i < j < |bounds| ==> bounds[i] <= bounds[j]
  }

  /** The place behind the first entry at or behind `k`. */
  function Behind(es: seq<Entry>, k: UserKey): nat {
    LeadingBelow(es, k, 0) + 1
  }

  /** Range `i` takes an entry that the range behind it takes again: its boundaries are the same key, and
      there is an entry behind the first one of that key. */
  predicate Doubles(es: seq<Entry>, bounds: seq<UserKey>, i: nat) {
    0 < i < |bounds| && bounds[i] == bounds[i - 1] && Behind(es, bounds[i]) < |es|
  }

  /** The ranges begin behind the first entry of their lower boundary, and end where the next one begins
      unless they double. */
  ghost predicate Cuts(es: seq<Entry>, bounds: seq<UserKey>, starts: seq<nat>, ends: seq<nat>, parts: seq<seq<Entry>>) {
    && Sliced(es, starts, ends, parts) && |parts| == |bounds| + 1
    && (forall i, j :: 0 <= i < |bounds| && j == i + 1 ==> starts[j] == Behind(es, bounds[i]))
    && forall i, j :: 0 <= i < |bounds| && j == i + 1 ==> (ends[i] == starts[j] <==> !Doubles(es, bounds, i))
  }

  /** Each range between two boundaries takes its entries. */
  method TakeAll(es: seq<Entry>, bounds: seq<UserKey>)
      returns (parts: seq<seq<Entry>>, ghost starts: seq<nat>, ghost ends: seq<nat>)
    requires Sorted(es) && BoundsOk(es, bounds)
    ensures Cuts(es, bounds, starts, ends, parts)
  {
    parts, starts, ends := [], [], [];
    for i := 0 to |bounds| + 1
      invariant |parts| == |starts| == |ends| == i
      invariant forall k :: 0 <= k < i ==> Took(es, bounds, k, starts[k], ends[k], parts[k])
    {
      var part;
      ghost var from, upto;
      part, from, upto := TakeOne(es, bounds, i);
      parts, starts, ends := parts + [part], starts + [from], ends + [upto];
    }
    TookAll(es, bounds, starts, ends, parts);
  }

  /** The entries of range `i`. */
  method TakeOne(es: seq<Entry>, bounds: seq<UserKey>, i: nat)
      returns (part: seq<Entry>, ghost from: nat, ghost upto: nat)
    requires Sorted(es) && BoundsOk(es, bounds) && i <= |bounds|
    ensures Took(es, bounds, i, from, upto, part)
  {
    var a, b := Take(es, if i == 0 then None else Some(bounds[i - 1]), if i == |bounds| then None else Some(bounds[i]));
    RangeEnds(es, bounds, i, a, b);
    part, from, upto := es[a..b], a, b;
  }

  ghost predicate Took(es: seq<Entry>, bounds: seq<UserKey>, i: nat, from: nat, upto: nat, part: seq<Entry>)
    requires i <= |bounds|
  {
    RangeIs(es, bounds, i, from, upto) && from <= upto <= |es| && part == es[from..upto]
  }

  lemma {:induction false} TookAll(es: seq<Entry>, bounds: seq<UserKey>, starts: seq<nat>, ends: seq<nat>,
      parts: seq<seq<Entry>>)
    requires |starts| == |ends| == |parts| == |bounds| + 1
    requires forall k :: 0 <= k < |parts| ==> Took(es, bounds, k, starts[k], ends[k], parts[k])
    ensures Cuts(es, bounds, starts, ends, parts)
  {
    forall i, j | 0 <= i < |bounds| && j == i + 1
      ensures starts[j] == Behind(es, bounds[i]) <= ends[i] && (ends[i] == starts[j] <==> !Doubles(es, bounds, i))
    {
      assert Took(es, bounds, i, starts[i], ends[i], parts[i]) && Took(es, bounds, j, starts[j], ends[j], parts[j]);
    }
  }

  /** Where range `i` begins and ends. */
  ghost predicate RangeIs(es: seq<Entry>, bounds: seq<UserKey>, i: nat, from: nat, upto: nat)
    requires i <= |bounds|
  {
    && from == (if i == 0 then 0 else Behind(es, bounds[i - 1]))
    && upto == if i == |bounds| then |es| else Behind(es, bounds[i]) + if Doubles(es, bounds, i) then 1 else 0
  }

  lemma {:induction false} RangeEnds(es: seq<Entry>, bounds: seq<UserKey>, i: nat, from: nat, upto: nat)
    requires Sorted(es) && BoundsOk(es, bounds) && i <= |bounds|
    requires from == (if i == 0 then 0 else Behind(es, bounds[i - 1])) <= |es|
    requires if i == |bounds| then upto == |es|
             else upto == var n := LeadingBelow(es, bounds[i], from); if n < |es| then n + 1 else |es|
    ensures RangeIs(es, bounds, i, from, upto)
  {
    if i < |bounds| {
      CutIsAtKey(es, bounds[i]);
      if i > 0 && bounds[i - 1] < bounds[i] {
        SameCut(es, bounds[i - 1], bounds[i]);
      } else if i > 0 && from < |es| {
        SortedFacts(es, from - 1, from);
      }
    }
  }

  /** The parts are slices of the input; each begins no later than the one before it ends. */
  ghost predicate Sliced(es: seq<Entry>, starts: seq<nat>, ends: seq<nat>, parts: seq<seq<Entry>>) {
    && |starts| == |ends| == |parts| > 0 && starts[0] == 0 && ends[|ends| - 1] == |es|
    && (forall i :: 0 <= i < |parts| ==> starts[i] <= ends[i] <= |es| && parts[i] == es[starts[i]..ends[i]])
    && forall i, j :: 0 <= i < |parts| && j == i + 1 && j < |parts| ==> starts[j] <= ends[i]
  }

  /** How much the first `n` slices overlap the ones behind them. */
  function Overlap(starts: seq<nat>, ends: seq<nat>, n: nat): int
    requires n < |starts| == |ends|
  {
    if n == 0 then 0 else Overlap(starts, ends, n - 1) + ends[n - 1] - starts[n]
  }

  lemma {:induction false} OverlapExactly(es: seq<Entry>, starts: seq<nat>, ends: seq<nat>, parts: seq<seq<Entry>>,
      n: nat)
    requires Sliced(es, starts, ends, parts) && n < |parts|
    ensures Overlap(starts, ends, n) >= 0
    ensures Overlap(starts, ends, n) == 0 <==> forall i, j :: 0 <= i < n && j == i + 1 ==> ends[i] == starts[j]
  {
    if n > 0 {
      OverlapExactly(es, starts, ends, parts, n - 1);
    }
  }

  lemma {:induction false} FrontSlices(es: seq<Entry>, starts: seq<nat>, ends: seq<nat>, parts: seq<seq<Entry>>, n: nat)
    requires Sliced(es, starts, ends, parts) && n < |parts|
    ensures |Flatten(parts[..n])| == starts[n] + Overlap(starts, ends, n)
    ensures (forall i, j :: 0 <= i < n && j == i + 1 ==> ends[i] == starts[j]) ==>
              Flatten(parts[..n]) == es[..starts[n]]
  {
    if n > 0 {
      FrontSlices(es, starts, ends, parts, n - 1);
      assert parts[..n][..n - 1] == parts[..n - 1];
      SlicesJoin(es, starts[n - 1], ends[n - 1]);
    }
  }

  lemma {:induction false} SlicesJoin(es: seq<Entry>, a: nat, b: nat)
    requires a <= b <= |es|
    ensures es[..a] + es[a..b] == es[..b]
  {
  }

  lemma {:induction false} SlicedExactly(es: seq<Entry>, starts: seq<nat>, ends: seq<nat>, parts: seq<seq<Entry>>)
    requires Sliced(es, starts, ends, parts)
    ensures Flatten(parts) == es <==> forall i, j :: 0 <= i && j == i + 1 && j < |parts| ==> ends[i] == starts[j]
  {
    var n := |parts| - 1;
    FrontSlices(es, starts, ends, parts, n);
    OverlapExactly(es, starts, ends, parts, n);
    SlicesJoin(es, starts[n], ends[n]);
    assert es[..|es|] == es;
    assert Flatten(parts) == Flatten(parts[..n]) + parts[n];
  }

  lemma {:induction false} InSomePart(parts: seq<seq<Entry>>, e: Entry)
    ensures e in Flatten(parts) <==> exists i :: 0 <= i < |parts| && e in parts[i]
  {
    if parts != [] {
      var n := |parts| - 1;
      var front := parts[..n];
      InSomePart(front, e);
      if e in Flatten(front) {
        var i :| 0 <= i < n && e in front[i];
        assert e in parts[i];
      }
      forall i | 0 <= i < |parts| && e in parts[i]
        ensures e in Flatten(parts)
      {
        assert i < n ==> e in front[i];
      }
    }
  }

  lemma {:induction false} SliceWith(es: seq<Entry>, starts: seq<nat>, ends: seq<nat>, parts: seq<seq<Entry>>, k: nat,
      n: nat) returns (i: nat)
    requires Sliced(es, starts, ends, parts) && n < |parts| && k < ends[n]
    ensures i < |parts| && starts[i] <= k < ends[i]
  {
    i := n;
    if k < starts[n] {
      assert n > 0 && starts[n] <= ends[n - 1];
      i := SliceWith(es, starts, ends, parts, k, n - 1);
    }
  }

  lemma {:induction false} SlicesCover(es: seq<Entry>, starts: seq<nat>, ends: seq<nat>, parts: seq<seq<Entry>>)
    requires Sliced(es, starts, ends, parts)
    ensures Entries(Flatten(parts)) == Entries(es)
  {
    forall e
      ensures e in Flatten(parts) <==> e in es
    {
      InSomePart(parts, e);
      if e in es {
        var k :| 0 <= k < |es| && es[k] == e;
        var i := SliceWith(es, starts, ends, parts, k, |parts| - 1);
        assert parts[i][k - starts[i]] == e;
      }
    }
  }

  /** Every entry goes to exactly one range, in order, if and only if no boundary is repeated before the end
      of the input. */
  lemma {:induction false} PartitionExactly(es: seq<Entry>, bounds: seq<UserKey>, starts: seq<nat>, ends: seq<nat>,
      parts: seq<seq<Entry>>)
    requires Cuts(es, bounds, starts, ends, parts)
    ensures Flatten(parts) == es <==> forall i :: 0 <= i < |bounds| ==> !Doubles(es, bounds, i)
  {
    SlicedExactly(es, starts, ends, parts);
    if Flatten(parts) == es {
      forall i | 0 <= i < |bounds|
        ensures !Doubles(es, bounds, i)
      {
        var j := i + 1;
        assert ends[i] == starts[j];
      }
    }
  }

  /** Strictly between the boundaries of range `k`. */
  ghost predicate Between(bounds: seq<UserKey>, k: nat, u: UserKey) {
    k <= |bounds| && (k > 0 ==> bounds[k - 1] < u) && (k < |bounds| ==> u < bounds[k])
  }

  /** A range takes every entry strictly between its boundaries, and nothing outside them unless it doubles. */
  lemma {:induction false} TakesBetween(es: seq<Entry>, bounds: seq<UserKey>, starts: seq<nat>, ends: seq<nat>,
      parts: seq<seq<Entry>>, k: nat, e: Entry)
    requires Sorted(es) && BoundsOk(es, bounds) && Cuts(es, bounds, starts, ends, parts) && k < |parts|
    ensures e in es && Between(bounds, k, e.key.user) ==> e in parts[k]
    ensures e in parts[k] ==> k > 0 ==> bounds[k - 1] <= e.key.user
    ensures e in parts[k] && !Doubles(es, bounds, k) ==> k < |bounds| ==> e.key.user <= bounds[k]
  {
    if e in es && Between(bounds, k, e.key.user) {
      var p :| 0 <= p < |es| && es[p] == e;
      SliceAround(es, bounds, starts, ends, parts, k, p);
      assert parts[k][p - starts[k]] == e;
    }
    if e in parts[k] {
      var p := PlaceOf(es, starts, ends, parts, k, e);
      SliceAround(es, bounds, starts, ends, parts, k, p);
    }
  }

  lemma {:induction false} PlaceOf(es: seq<Entry>, starts: seq<nat>, ends: seq<nat>, parts: seq<seq<Entry>>, k: nat,
      e: Entry) returns (p: nat)
    requires Sliced(es, starts, ends, parts) && k < |parts| && e in parts[k]
    ensures starts[k] <= p < ends[k] <= |es| && es[p] == e
  {
    var q :| 0 <= q < |parts[k]| && parts[k][q] == e;
    p := starts[k] + q;
  }

  lemma {:induction false} SliceAround(es: seq<Entry>, bounds: seq<UserKey>, starts: seq<nat>, ends: seq<nat>,
      parts: seq<seq<Entry>>, k: nat, p: nat)
    requires Sorted(es) && BoundsOk(es, bounds) && Cuts(es, bounds, starts, ends, parts) && k < |parts| && p < |es|
    ensures k > 0 && bounds[k - 1] < es[p].key.user ==> starts[k] <= p
    ensures k > 0 && starts[k] <= p ==> bounds[k - 1] <= es[p].key.user
    ensures k < |bounds| && es[p].key.user < bounds[k] ==> p < ends[k]
    ensures k < |bounds| && !Doubles(es, bounds, k) && p < ends[k] ==> es[p].key.user <= bounds[k]
  {
    if k > 0 {
      AroundCut(es, bounds[k - 1], p);
      assert starts[k] == Behind(es, bounds[k - 1]);
    }
    if k < |bounds| {
      AroundCut(es, bounds[k], p);
      var j := k + 1;
      assert starts[j] == Behind(es, bounds[k]) && starts[j] <= ends[k];
    }
  }

  lemma {:induction false} AroundCut(es: seq<Entry>, b: UserKey, p: nat)
    requires Sorted(es) && Present(es, b) && p < |es|
    ensures p < Behind(es, b) ==> es[p].key.user <= b
    ensures Behind(es, b) <= p ==> b <= es[p].key.user
  {
    CutIsAtKey(es, b);
    var n := LeadingBelow(es, b, 0);
    if n < p {
      SortedFacts(es, n, p);
    }
  }

  // ----- What the ranges write together -----

  /** Each range is merged on its own, with the smallest snapshot it found when it began. */
  function Merged(parts: seq<seq<Entry>>, snapshots: seq<nat>): seq<Entry>
    requires |snapshots| == |parts|
  {
    if parts == [] then []
    else
      var n := |parts| - 1;
      Merged(parts[..n], snapshots[..n]) + Merge.Survivors(parts[n], Some(snapshots[n]), |parts[n]|)
  }

  lemma {:induction false} SortedParts(a: seq<Entry>, b: seq<Entry>)
    requires Sorted(a + b)
    ensures Sorted(a) && Sorted(b)
    ensures forall x, y :: x in a && y in b ==> Less(x.key, y.key)
  {
    var c := a + b;
    assert forall i :: 0 <= i < |a| ==> c[i] == a[i];
    assert forall i :: 0 <= i < |b| ==> c[|a| + i] == b[i];
    forall x, y | x in a && y in b
      ensures Less(x.key, y.key)
    {
      var i :| 0 <= i < |a| && a[i] == x;
      var j :| 0 <= j < |b| && b[j] == y;
      assert Less(c[i].key, c[|a| + j].key);
    }
  }

  lemma {:induction false} SortedJoin(a: seq<Entry>, b: seq<Entry>)
    requires Sorted(a) && Sorted(b) && forall x, y :: x in a && y in b ==> Less(x.key, y.key)
    ensures Sorted(a + b)
  {
  }

  lemma {:induction false} SortedIsProper(es: seq<Entry>)
    requires Sorted(es)
    ensures Proper(Entries(es))
  {
    assert forall a, b :: 0 <= a < b < |es| ==> es[a].key != es[b].key;
    forall e, f | e in es && f in es && e.key == f.key
      ensures e == f
    {
      var a :| 0 <= a < |es| && es[a] == e;
      var b :| 0 <= b < |es| && es[b] == f;
      assert a == b;
    }
  }

  /** Every read not older than any of the smallest snapshots finds in the outputs what it finds in the whole
      input. */
  lemma {:induction false} OutputsReadAlike(parts: seq<seq<Entry>>, snapshots: seq<nat>, s: nat)
    requires |snapshots| == |parts| && forall i :: 0 <= i < |parts| ==> Sorted(parts[i]) && snapshots[i] <= s
    requires Proper(Entries(Flatten(parts)))
    ensures SameReads(Entries(Flatten(parts)), Entries(Merged(parts, snapshots)), s)
  {
    if parts != [] {
      var n := |parts| - 1;
      var rest, last, early := parts[..n], parts[n], snapshots[..n];
      assert Entries(Flatten(rest)) <= Entries(Flatten(parts)) && Entries(last) <= Entries(Flatten(parts));
      OutputsReadAlike(rest, early, s);
      PartReadsAlike(last, snapshots[n], s);
      var out := Merge.Survivors(last, Some(snapshots[n]), |last|);
      JoinReadsAlike(Flatten(rest), Merged(rest, early), last, out, s);
    }
  }

  /** The outputs of ranges that partition the input are sorted, one behind the other. */
  lemma {:induction false} OutputsSorted(parts: seq<seq<Entry>>, snapshots: seq<nat>)
    requires Sorted(Flatten(parts)) && |snapshots| == |parts|
    ensures Sorted(Merged(parts, snapshots)) && forall e :: e in Merged(parts, snapshots) ==> e in Flatten(parts)
  {
    if parts != [] {
      var n := |parts| - 1;
      var rest, last := parts[..n], parts[n];
      SortedParts(Flatten(rest), last);
      OutputsSorted(rest, snapshots[..n]);
      Merge.SurvivorsSorted(last, Some(snapshots[n]), |last|);
      Merge.SurvivorsAreKept(last, Some(snapshots[n]), |last|);
      SortedJoin(Merged(rest, snapshots[..n]), Merge.Survivors(last, Some(snapshots[n]), |last|));
    }
  }

  lemma {:induction false} PartReadsAlike(part: seq<Entry>, snapshot: nat, s: nat)
    requires Sorted(part) && snapshot <= s
    ensures var out := Merge.Survivors(part, Some(snapshot), |part|);
            && Sorted(out) && (forall e :: e in out ==> e in part) && SameReads(Entries(part), Entries(out), s)
  {
    Merge.SurvivorsSorted(part, Some(snapshot), |part|);
    Merge.SurvivorsAreKept(part, Some(snapshot), |part|);
    forall k, r
      ensures Reads(Entries(part), k, s, r) <==> Reads(Entries(Merge.Survivors(part, Some(snapshot), |part|)), k, s, r)
    {
      Merge.MergePreservesReads(part, Some(snapshot), k, s, r);
    }
  }

  lemma {:induction false} JoinReadsAlike(a: seq<Entry>, a': seq<Entry>, b: seq<Entry>, b': seq<Entry>, s: nat)
    requires Proper(Entries(a)) && Proper(Entries(b))
    requires SameReads(Entries(a), Entries(a'), s) && SameReads(Entries(b), Entries(b'), s)
    ensures SameReads(Entries(a + b), Entries(a' + b'), s)
  {
    ReplacePart(Entries(a), Entries(a'), Entries(b), s);
    ReplacePart(Entries(b), Entries(b'), Entries(a'), s);
    assert Entries(a + b) == Entries(a) + Entries(b) && Entries(a' + b') == Entries(b') + Entries(a');
    assert Entries(a') + Entries(b) == Entries(b) + Entries(a');
  }

  // ----- Grouping the ranges -----

  /** Ranges first..last, of `size` bytes together. */
  datatype Group = Group(first: nat, last: nat, size: nat)

  function Sum(sizes: seq<nat>, a: nat, b: nat): nat
    requires a <= b <= |sizes|
  {
    if a == b then 0 else Sum(sizes, a, b - 1) + sizes[b - 1]
  }

  lemma {:induction false} SumSplits(sizes: seq<nat>, a: nat, b: nat, c: nat)
    requires a <= b <= c <= |sizes|
    ensures Sum(sizes, a, b) + Sum(sizes, b, c) == Sum(sizes, a, c)
  {
    if b < c {
      SumSplits(sizes, a, b, c - 1);
    }
  }

  /** How many of the sizes from `a` to `b` are above `limit`. */
  function Big(sizes: seq<nat>, limit: int, a: nat, b: nat): nat
    requires a <= b <= |sizes|
  {
    if a == b then 0 else Big(sizes, limit, a, b - 1) + if sizes[b - 1] > limit then 1 else 0
  }

  lemma {:induction false} BigSplits(sizes: seq<nat>, limit: int, a: nat, b: nat, c: nat)
    requires a <= b <= c <= |sizes|
    ensures Big(sizes, limit, a, b) + Big(sizes, limit, b, c) == Big(sizes, limit, a, c)
  {
    if b < c {
      BigSplits(sizes, limit, a, b, c - 1);
    }
  }

  /** The number of small sizes. */
  method CountSmall(sizes: seq<nat>, quarter: nat) returns (small: nat)
    ensures small + Big(sizes, quarter, 0, |sizes|) == |sizes|
  {
    small := 0;
    for i := 0 to |sizes|
      invariant small + Big(sizes, quarter, 0, i) == i
    {
      if sizes[i] <= quarter {
        small := small + 1;
      }
    }
  }

  /** Division that drops the fraction, for either sign. */
  function Truncate(a: int, b: int): int
    requires b > 0
  {
    if a >= 0 then a / b else -(-a / b)
  }

  /** Where the group ends that has come to `last` with `counter` ranges counted: enough are in and the
      next one is big. */
  function GroupEnd(sizes: seq<nat>, quarter: nat, per: int, last: nat, counter: nat): (r: nat)
    requires last < |sizes|
    ensures last <= r < |sizes| && (r + 1 < |sizes| ==> sizes[r + 1] > quarter)
    decreases |sizes| - last
  {
    if last + 1 < |sizes| && (counter < per || sizes[last + 1] <= quarter) then
      GroupEnd(sizes, quarter, per, last + 1, counter + if sizes[last + 1] >= quarter then 1 else 0)
    else last
  }

  /** The groups from range `i` on. */
  function Groups(sizes: seq<nat>, quarter: nat, per: int, i: nat): seq<Group>
    requires i <= |sizes|
    decreases |sizes| - i
  {
    if i == |sizes| then []
    else
      var last := GroupEnd(sizes, quarter, per, i, if sizes[i] <= quarter then 0 else 1);
      [Group(i, last, Sum(sizes, i, last + 1))] + Groups(sizes, quarter, per, last + 1)
  }

  /** How many of the ranges from `i` to `last` the grouping counts: the first one above a quarter, the others from
      a quarter on. */
  function Counted(sizes: seq<nat>, quarter: nat, i: nat, last: nat): nat
    requires i <= last < |sizes|
  {
    (if sizes[i] <= quarter then 0 else 1) + Big(sizes, quarter - 1, i + 1, last + 1)
  }

  /** A group goes on while it counts fewer than `per` ranges or the next one is small, and no further. */
  ghost predicate GroupRule(sizes: seq<nat>, quarter: nat, per: int, i: nat, last: nat) {
    && i <= last < |sizes|
    && (forall x, y :: i <= x < last && y == x + 1 ==> Counted(sizes, quarter, i, x) < per || sizes[y] <= quarter)
    && (last + 1 < |sizes| ==> Counted(sizes, quarter, i, last) >= per && sizes[last + 1] > quarter)
  }

  lemma {:induction false} EndFollowsRule(sizes: seq<nat>, quarter: nat, per: int, i: nat, last: nat)
    requires i <= last < |sizes|
    requires forall x, y :: i <= x < last && y == x + 1 ==> Counted(sizes, quarter, i, x) < per || sizes[y] <= quarter
    ensures GroupRule(sizes, quarter, per, i, GroupEnd(sizes, quarter, per, last, Counted(sizes, quarter, i, last)))
    decreases |sizes| - last
  {
    var counter := Counted(sizes, quarter, i, last);
    if last + 1 < |sizes| && (counter < per || sizes[last + 1] <= quarter) {
      EndFollowsRule(sizes, quarter, per, i, last + 1);
    }
  }

  /** Every group follows the rule. */
  lemma {:induction false} GroupsFollowRule(sizes: seq<nat>, quarter: nat, per: int, i: nat)
    requires i <= |sizes|
    ensures forall g :: g in Groups(sizes, quarter, per, i) ==> GroupRule(sizes, quarter, per, g.first, g.last)
    decreases |sizes| - i
  {
    if i < |sizes| {
      EndFollowsRule(sizes, quarter, per, i, i);
      var last := GroupEnd(sizes, quarter, per, i, Counted(sizes, quarter, i, i));
      GroupsFollowRule(sizes, quarter, per, last + 1);
    }
  }

  lemma {:induction false} RuleIsUnique(sizes: seq<nat>, quarter: nat, per: int, i: nat, a: nat, b: nat)
    requires GroupRule(sizes, quarter, per, i, a) && GroupRule(sizes, quarter, per, i, b)
    ensures a == b
  {
  }

  /** One round of the grouping. */
  method GroupFrom(sizes: seq<nat>, quarter: nat, per: int, i: nat) returns (g: Group)
    requires i < |sizes|
    ensures var last := GroupEnd(sizes, quarter, per, i, if sizes[i] <= quarter then 0 else 1);
            g == Group(i, last, Sum(sizes, i, last + 1))
  {
    var last, size := i, sizes[i];
    var counter := if size <= quarter then 0 else 1;
    ghost var end := GroupEnd(sizes, quarter, per, i, counter);
    while last + 1 != |sizes| && (counter < per || sizes[last + 1] <= quarter)
      invariant i <= last < |sizes| && size == Sum(sizes, i, last + 1)
      invariant GroupEnd(sizes, quarter, per, last, counter) == end
      decreases |sizes| - last
    {
      last := last + 1;
      size := size + sizes[last];
      if sizes[last] >= quarter {
        counter := counter + 1;
      }
    }
    g := Group(i, last, size);
  }

  method GroupAll(sizes: seq<nat>, quarter: nat, per: int) returns (groups: seq<Group>)
    ensures groups == Groups(sizes, quarter, per, 0)
  {
    groups := [];
    var i := 0;
    while i < |sizes|
      invariant i <= |sizes| && groups + Groups(sizes, quarter, per, i) == Groups(sizes, quarter, per, 0)
      decreases |sizes| - i
    {
      var g := GroupFrom(sizes, quarter, per, i);
      Regroup(groups, g, Groups(sizes, quarter, per, g.last + 1));
      groups := groups + [g];
      i := g.last + 1;
    }
  }

  lemma {:induction false} Regroup(a: seq<Group>, g: Group, b: seq<Group>)
    ensures a + ([g] + b) == a + [g] + b
  {
  }

  /** The groups follow one another from `from` to the end, and their sizes are those of their ranges. */
  ghost predicate Tiles(groups: seq<Group>, sizes: seq<nat>, from: nat)
    decreases |groups|
  {
    if groups == [] then from == |sizes|
    else
      && from == groups[0].first <= groups[0].last < |sizes|
      && groups[0].size == Sum(sizes, from, groups[0].last + 1)
      && Tiles(groups[1..], sizes, groups[0].last + 1)
  }

  function TotalSize(groups: seq<Group>): nat {
    if groups == [] then 0 else groups[0].size + TotalSize(groups[1..])
  }

  lemma {:induction false} SizeIsConserved(groups: seq<Group>, sizes: seq<nat>, from: nat)
    requires from <= |sizes| && Tiles(groups, sizes, from)
    ensures TotalSize(groups) == Sum(sizes, from, |sizes|)
    decreases |groups|
  {
    if groups != [] {
      SizeIsConserved(groups[1..], sizes, groups[0].last + 1);
      SumSplits(sizes, from, groups[0].last + 1, |sizes|);
    }
  }

  lemma {:induction false} GroupsTile(sizes: seq<nat>, quarter: nat, per: int, i: nat)
    requires i <= |sizes|
    ensures Tiles(Groups(sizes, quarter, per, i), sizes, i)
    decreases |sizes| - i
  {
    if i < |sizes| {
      var gs := Groups(sizes, quarter, per, i);
      GroupsTile(sizes, quarter, per, gs[0].last + 1);
      assert gs[1..] == Groups(sizes, quarter, per, gs[0].last + 1);
    }
  }

  /** The rule leaves no choice: two tilings whose groups follow it are the same. */
  lemma {:induction false} RuleDetermines(gs: seq<Group>, hs: seq<Group>, sizes: seq<nat>, quarter: nat, per: int,
      from: nat)
    requires Tiles(gs, sizes, from) && Tiles(hs, sizes, from)
    requires forall g :: g in gs ==> GroupRule(sizes, quarter, per, g.first, g.last)
    requires forall g :: g in hs ==> GroupRule(sizes, quarter, per, g.first, g.last)
    ensures gs == hs
    decreases |gs|
  {
    if gs != [] && hs != [] {
      assert gs[0] in gs && hs[0] in hs;
      RuleIsUnique(sizes, quarter, per, from, gs[0].last, hs[0].last);
      RuleDetermines(gs[1..], hs[1..], sizes, quarter, per, gs[0].last + 1);
      assert gs == [gs[0]] + gs[1..] && hs == [hs[0]] + hs[1..];
    }
  }

  /** A group that is not the last one has at least `per` ranges of a quarter or more. */
  lemma {:induction false} GroupIsFull(sizes: seq<nat>, quarter: nat, per: int, i: nat, last: nat, counter: nat)
    requires i <= last < |sizes| && counter <= Big(sizes, quarter - 1, i, last + 1)
    ensures var end := GroupEnd(sizes, quarter, per, last, counter);
            end + 1 < |sizes| ==> Big(sizes, quarter - 1, i, end + 1) >= per
    decreases |sizes| - last
  {
    if last + 1 < |sizes| && (counter < per || sizes[last + 1] <= quarter) {
      GroupIsFull(sizes, quarter, per, i, last + 1, counter + if sizes[last + 1] >= quarter then 1 else 0);
    }
  }

  /** Where the group that begins at `i` is followed by the next one. */
  function NextGroup(sizes: seq<nat>, quarter: nat, per: int, i: nat): (r: nat)
    requires i < |sizes|
    ensures i < r <= |sizes| && (r < |sizes| ==> sizes[r] > quarter)
  {
    GroupEnd(sizes, quarter, per, i, if sizes[i] <= quarter then 0 else 1) + 1
  }

  /** How many groups there are from range `i` on. */
  function NumGroups(sizes: seq<nat>, quarter: nat, per: int, i: nat): nat
    requires i <= |sizes|
    decreases |sizes| - i
  {
    if i == |sizes| then 0 else 1 + NumGroups(sizes, quarter, per, NextGroup(sizes, quarter, per, i))
  }

  lemma {:induction false} GroupsAreCounted(sizes: seq<nat>, quarter: nat, per: int, i: nat)
    requires i <= |sizes|
    ensures |Groups(sizes, quarter, per, i)| == NumGroups(sizes, quarter, per, i)
    decreases |sizes| - i
  {
    if i < |sizes| {
      GroupsAreCounted(sizes, quarter, per, NextGroup(sizes, quarter, per, i));
    }
  }

  /** Every group but the last has `per` ranges of a quarter or more, and the last one, if not the only one,
      has one. */
  lemma {:induction false} GroupsTakeBig(sizes: seq<nat>, quarter: nat, per: nat, i: nat)
    requires i < |sizes|
    ensures var n := NumGroups(sizes, quarter, per, i);
            n >= 1 && (n > 1 ==> (n - 1) * per + 1 <= Big(sizes, quarter - 1, i, |sizes|))
    decreases |sizes| - i
  {
    var next := NextGroup(sizes, quarter, per, i);
    if next < |sizes| {
      FirstGroupIsFull(sizes, quarter, per, i, next);
      GroupsTakeBig(sizes, quarter, per, next);
      OneGroupMore(NumGroups(sizes, quarter, per, next), per, Big(sizes, quarter - 1, next, |sizes|));
    }
  }

  lemma {:induction false} FirstGroupIsFull(sizes: seq<nat>, quarter: nat, per: nat, i: nat, next: nat)
    requires i < |sizes| && next == NextGroup(sizes, quarter, per, i) < |sizes|
    ensures Big(sizes, quarter - 1, i, |sizes|) >= per + Big(sizes, quarter - 1, next, |sizes|)
    ensures Big(sizes, quarter - 1, next, |sizes|) >= 1
  {
    var counter := if sizes[i] <= quarter then 0 else 1;
    assert counter <= Big(sizes, quarter - 1, i, i + 1);
    GroupIsFull(sizes, quarter, per, i, i, counter);
    BigSplits(sizes, quarter - 1, i, next, |sizes|);
    BigSplits(sizes, quarter - 1, next, next + 1, |sizes|);
    assert Big(sizes, quarter - 1, next, next + 1) == 1;
  }

  /** Every group but the first begins with a big range. */
  lemma {:induction false} GroupsStartBig(sizes: seq<nat>, quarter: nat, per: nat, i: nat)
    requires i < |sizes|
    ensures NumGroups(sizes, quarter, per, i) <= 1 + Big(sizes, quarter, i + 1, |sizes|)
    decreases |sizes| - i
  {
    var next := NextGroup(sizes, quarter, per, i);
    if next < |sizes| {
      GroupsStartBig(sizes, quarter, per, next);
      BigSplits(sizes, quarter, i + 1, next, |sizes|);
      BigSplits(sizes, quarter, next, next + 1, |sizes|);
      assert Big(sizes, quarter, next, next + 1) == 1;
    }
  }

  lemma {:induction false} OneGroupMore(n: nat, per: nat, big: nat)
    requires n >= 1 && big >= 1 && (n > 1 ==> (n - 1) * per + 1 <= big)
    ensures n * per + 1 <= per + big
  {
    assert n * per == (n - 1) * per + per;
  }

  /** The ranges of a compaction, grouped when there are more boundaries than `max`. */
  method MakeGroups(sizes: seq<nat>, quarter: nat, max: nat) returns (groups: seq<Group>)
    requires sizes != [] && max > 0
    ensures Tiles(groups, sizes, 0) && TotalSize(groups) == Sum(sizes, 0, |sizes|)
    ensures |sizes| - 1 <= max ==> |groups| == |sizes|
    ensures |sizes| - 1 > max ==> |groups| == NumGroups(sizes, quarter, PerGroup(sizes, quarter, max), 0)
    ensures |sizes| - 1 > max ==>
              forall g :: g in groups ==> GroupRule(sizes, quarter, PerGroup(sizes, quarter, max), g.first, g.last)
  {
    if |sizes| - 1 <= max {
      groups := OneEach(sizes);
      SinglesTile(sizes, 0);
    } else {
      var small := CountSmall(sizes, quarter);
      groups := GroupAll(sizes, quarter, Truncate(|sizes| - 1 - small, max) + 1);
      GroupsTile(sizes, quarter, PerGroup(sizes, quarter, max), 0);
      GroupsAreCounted(sizes, quarter, PerGroup(sizes, quarter, max), 0);
      GroupsFollowRule(sizes, quarter, PerGroup(sizes, quarter, max), 0);
    }
    SizeIsConserved(groups, sizes, 0);
  }

  /** How many big ranges a group is meant to have. */
  function PerGroup(sizes: seq<nat>, quarter: nat, max: nat): int
    requires max > 0
  {
    PerBig(Big(sizes, quarter, 0, |sizes|), max)
  }

  function PerBig(big: nat, max: nat): int
    requires max > 0
  {
    Truncate(big - 1, max) + 1
  }

  /** Every range from `i` on by itself. */
  function Singles(sizes: seq<nat>, i: nat): (r: seq<Group>)
    requires i <= |sizes|
    ensures |r| == |sizes| - i
    decreases |sizes| - i
  {
    if i == |sizes| then [] else [Group(i, i, sizes[i])] + Singles(sizes, i + 1)
  }

  lemma {:induction false} SinglesTile(sizes: seq<nat>, i: nat)
    requires i <= |sizes|
    ensures Tiles(Singles(sizes, i), sizes, i)
    decreases |sizes| - i
  {
    if i < |sizes| {
      SinglesTile(sizes, i + 1);
      assert Singles(sizes, i)[1..] == Singles(sizes, i + 1);
      assert Sum(sizes, i, i + 1) == Sum(sizes, i, i) + sizes[i];
    }
  }

  method OneEach(sizes: seq<nat>) returns (groups: seq<Group>)
    ensures groups == Singles(sizes, 0)
  {
    groups := [];
    for i := 0 to |sizes|
      invariant groups + Singles(sizes, i) == Singles(sizes, 0)
    {
      var g := Group(i, i, sizes[i]);
      Regroup(groups, g, Singles(sizes, i + 1));
      groups := groups + [g];
    }
  }

  /** There are fewer big ranges than groups are allowed, or groups are large enough to hold every range of
      a quarter or more; a range of exactly a quarter counts as small in the estimate and as big in the loop. */
  predicate RoomFor(big: nat, atLeast: nat, max: nat)
    requires max > 0
  {
    big < max || atLeast <= max * PerBig(big, max)
  }

  /** Grouping leaves no more than `max` ranges if there is room for those of a quarter or more. */
  lemma {:induction false} FewGroups(sizes: seq<nat>, quarter: nat, max: nat)
    requires sizes != [] && max > 0
    requires RoomFor(Big(sizes, quarter, 0, |sizes|), Big(sizes, quarter - 1, 0, |sizes|), max)
    ensures NumGroups(sizes, quarter, PerGroup(sizes, quarter, max), 0) <= max
  {
    var big, per := Big(sizes, quarter, 0, |sizes|), PerGroup(sizes, quarter, max);
    if big == 0 {
      NoneBig(sizes, quarter, per);
    } else {
      assert per == (big - 1) / max + 1;
      GroupsTakeBig(sizes, quarter, per, 0);
      GroupsStartBig(sizes, quarter, per, 0);
      BigSplits(sizes, quarter, 0, 1, |sizes|);
      var n := NumGroups(sizes, quarter, per, 0);
      MulOrder(n - 1, max, per);
    }
  }

  /** When no range is exactly a quarter, there is always room. */
  lemma {:induction false} RoomWithoutQuarters(sizes: seq<nat>, quarter: nat, max: nat)
    requires max > 0 && quarter !in sizes
    ensures RoomFor(Big(sizes, quarter, 0, |sizes|), Big(sizes, quarter - 1, 0, |sizes|), max)
  {
    var big := Big(sizes, quarter, 0, |sizes|);
    NoQuarters(sizes, quarter, |sizes|);
    if big >= max {
      assert PerBig(big, max) == (big - 1) / max + 1;
      assert max * PerBig(big, max) == max * ((big - 1) / max) + max > big - 1;
    }
  }

  lemma {:induction false} NoQuarters(sizes: seq<nat>, quarter: nat, n: nat)
    requires quarter !in sizes && n <= |sizes|
    ensures Big(sizes, quarter - 1, 0, n) == Big(sizes, quarter, 0, n)
  {
    if n > 0 {
      NoQuarters(sizes, quarter, n - 1);
      assert sizes[n - 1] in sizes;
    }
  }

  lemma {:induction false} NoneBig(sizes: seq<nat>, quarter: nat, per: int)
    requires sizes != [] && Big(sizes, quarter, 0, |sizes|) == 0
    ensures NumGroups(sizes, quarter, per, 0) == 1
  {
    var next := NextGroup(sizes, quarter, per, 0);
    if next < |sizes| {
      BigSplits(sizes, quarter, 0, next, |sizes|);
      BigSplits(sizes, quarter, next, next + 1, |sizes|);
    }
    assert next == |sizes|;
  }

  lemma {:induction false} MulOrder(a: nat, b: nat, c: nat)
    ensures a >= b ==> a * c >= b * c
  {
    if a >= b {
      assert a * c == (a - b) * c + b * c;
    }
  }

  // ----- When there is no room -----

  /** What it takes to fill all of `m` groups but the last. */
  function Need(per: nat, m: nat): nat
    requires per >= 1
  {
    if m <= 1 then 0 else per - 1 + Need(per, m - 1)
  }

  lemma {:induction false} NeedIs(per: nat, m: nat)
    requires per >= 1 && m >= 1
    ensures Need(per, m) == (m - 1) * (per - 1)
  {
    if m > 1 {
      NeedIs(per, m - 1);
      assert (m - 1) * (per - 1) == (m - 2) * (per - 1) + (per - 1);
    }
  }

  /** `m` groups of which each begins with a big range and has `per` ranges of a quarter or more, taken from
      `fill`; the last one has all that are left. */
  function Blocks(quarter: nat, fill: seq<nat>, per: nat, m: nat): seq<nat>
    requires per >= 1 && m >= 1 && |fill| >= Need(per, m)
    decreases m
  {
    if m == 1 then [quarter + 1] + fill
    else [quarter + 1] + fill[..per - 1] + Blocks(quarter, fill[per - 1..], per, m - 1)
  }

  /** A group goes on for `k` ranges of a quarter or more until it has `per` and the next one is big. */
  lemma {:induction false} GroupRuns(sizes: seq<nat>, quarter: nat, per: nat, last: nat, counter: nat, k: nat)
    requires last + k + 1 < |sizes| && counter + k == per && sizes[last + k + 1] > quarter
    requires forall q :: last < q <= last + k ==> sizes[q] >= quarter
    ensures GroupEnd(sizes, quarter, per, last, counter) == last + k
    decreases k
  {
    if k > 0 {
      GroupRuns(sizes, quarter, per, last + 1, counter + 1, k - 1);
    }
  }

  /** From `i` on, `m` groups begin with a big range each, `per` ranges of a quarter or more apart. */
  ghost predicate InBlocks(sizes: seq<nat>, quarter: nat, per: nat, i: nat, m: nat)
    decreases m
  {
    && i < |sizes| && sizes[i] > quarter
    && (m > 1 ==>
          && i + per < |sizes| && (forall q :: i < q < i + per ==> sizes[q] >= quarter)
          && InBlocks(sizes, quarter, per, i + per, m - 1))
  }

  lemma {:induction false} BlocksMakeGroups(sizes: seq<nat>, quarter: nat, per: nat, i: nat, m: nat)
    requires per >= 1 && m >= 1 && InBlocks(sizes, quarter, per, i, m)
    ensures NumGroups(sizes, quarter, per, i) >= m
    decreases m
  {
    if m > 1 {
      GroupRuns(sizes, quarter, per, i, 1, per - 1);
      BlocksMakeGroups(sizes, quarter, per, i + per, m - 1);
    }
  }

  lemma {:induction false} BlocksAre(front: seq<nat>, quarter: nat, fill: seq<nat>, per: nat, m: nat)
    requires per >= 1 && m >= 1 && |fill| >= Need(per, m) && forall q :: 0 <= q < |fill| ==> fill[q] >= quarter
    ensures InBlocks(front + Blocks(quarter, fill, per, m), quarter, per, |front|, m)
    decreases m
  {
    if m > 1 {
      var f, g := fill[..per - 1], fill[per - 1..];
      BlocksAre(front + ([quarter + 1] + f), quarter, g, per, m - 1);
      BlockInFront(front, f, Blocks(quarter, g, per, m - 1), quarter, per, m);
    } else {
      assert (front + Blocks(quarter, fill, per, m))[|front|] == quarter + 1;
    }
  }

  lemma {:induction false} BlockInFront(front: seq<nat>, f: seq<nat>, rest: seq<nat>, quarter: nat, per: nat, m: nat)
    requires m > 1 && |f| == per - 1 && forall q :: 0 <= q < |f| ==> f[q] >= quarter
    requires InBlocks(front + ([quarter + 1] + f) + rest, quarter, per, |front| + per, m - 1)
    ensures InBlocks(front + ([quarter + 1] + f + rest), quarter, per, |front|, m)
  {
    var sizes := front + ([quarter + 1] + f) + rest;
    assert sizes == front + ([quarter + 1] + f + rest);
    assert sizes[|front|] == quarter + 1;
    forall q | |front| < q < |front| + per
      ensures sizes[q] >= quarter
    {
      assert sizes[q] == f[q - |front| - 1];
    }
  }

  lemma {:induction false} BigOfPrefix(a: seq<nat>, b: seq<nat>, limit: int, n: nat)
    requires n <= |a|
    ensures Big(a + b, limit, 0, n) == Big(a, limit, 0, n)
  {
    if n > 0 {
      BigOfPrefix(a, b, limit, n - 1);
    }
  }

  lemma {:induction false} BigJoins(a: seq<nat>, b: seq<nat>, limit: int)
    ensures Big(a + b, limit, 0, |a + b|) == Big(a, limit, 0, |a|) + Big(b, limit, 0, |b|)
    decreases |b|
  {
    if b == [] {
      assert a + b == a;
    } else {
      var n := |b| - 1;
      BigJoins(a, b[..n], limit);
      assert a + b == (a + b[..n]) + [b[n]] && b == b[..n] + [b[n]];
      BigOfPrefix(a + b[..n], [b[n]], limit, |a| + n);
      BigOfPrefix(b[..n], [b[n]], limit, n);
    }
  }

  /** The big ranges and those of at least a quarter of a list. */
  ghost predicate Counts(sizes: seq<nat>, quarter: nat, big: nat, atLeast: nat) {
    Big(sizes, quarter, 0, |sizes|) == big && Big(sizes, quarter - 1, 0, |sizes|) == atLeast
  }

  lemma {:induction false} CountsJoin(a: seq<nat>, b: seq<nat>, quarter: nat, big: nat, atLeast: nat, big': nat,
      atLeast': nat)
    requires Counts(a, quarter, big, atLeast) && Counts(b, quarter, big', atLeast')
    ensures Counts(a + b, quarter, big + big', atLeast + atLeast')
  {
    BigJoins(a, b, quarter);
    BigJoins(a, b, quarter - 1);
  }

  lemma {:induction false} CountsOfOne(x: nat, quarter: nat)
    ensures Counts([x], quarter, if x > quarter then 1 else 0, if x >= quarter then 1 else 0)
  {
    assert Big([x], quarter, 0, 0) == 0 && Big([x], quarter - 1, 0, 0) == 0;
    assert [x][0] == x;
  }

  /** `b` big ranges and then `q` of exactly a quarter. */
  function Fill(quarter: nat, b: nat, q: nat): (r: seq<nat>)
    ensures |r| == b + q && forall i :: 0 <= i < |r| ==> r[i] >= quarter
  {
    if q > 0 then Fill(quarter, b, q - 1) + [quarter]
    else if b > 0 then Fill(quarter, b - 1, 0) + [quarter + 1]
    else []
  }

  lemma {:induction false} FillCounts(quarter: nat, b: nat, q: nat)
    ensures Counts(Fill(quarter, b, q), quarter, b, b + q)
  {
    if q > 0 {
      FillCounts(quarter, b, q - 1);
      CountsOfOne(quarter, quarter);
      CountsJoin(Fill(quarter, b, q - 1), [quarter], quarter, b, b + q - 1, 0, 1);
    } else if b > 0 {
      FillCounts(quarter, b - 1, 0);
      CountsOfOne(quarter + 1, quarter);
      CountsJoin(Fill(quarter, b - 1, 0), [quarter + 1], quarter, b - 1, b - 1, 1, 1);
    }
  }

  lemma {:induction false} BlocksCount(quarter: nat, fill: seq<nat>, per: nat, m: nat, big: nat, atLeast: nat)
    requires per >= 1 && m >= 1 && |fill| >= Need(per, m) && Counts(fill, quarter, big, atLeast)
    ensures Counts(Blocks(quarter, fill, per, m), quarter, big + m, atLeast + m)
    decreases m
  {
    CountsOfOne(quarter + 1, quarter);
    if m == 1 {
      CountsJoin([quarter + 1], fill, quarter, 1, 1, big, atLeast);
    } else {
      var a, b := fill[..per - 1], fill[per - 1..];
      assert fill == a + b;
      var x, y := Big(a, quarter, 0, |a|), Big(a, quarter - 1, 0, |a|);
      BigJoins(a, b, quarter);
      BigJoins(a, b, quarter - 1);
      BlocksCount(quarter, b, per, m - 1, big - x, atLeast - y);
      CountsJoin([quarter + 1], a, quarter, 1, 1, x, y);
      CountsJoin([quarter + 1] + a, Blocks(quarter, b, per, m - 1), quarter, 1 + x, 1 + y,
                 big - x + m - 1, atLeast - y + m - 1);
    }
  }

  lemma {:induction false} EnoughToFill(big: nat, atLeast: nat, max: nat, per: nat)
    requires max >= 1 && per >= 1 && max <= big <= atLeast && atLeast > max * per
    ensures atLeast - max >= per && atLeast - max - per >= Need(per, max)
  {
    NeedIs(per, max);
    assert max * per == (max - 1) * (per - 1) + max + per - 1;
  }

  /** Without room there is a list with just these counts that is cut into more than `max` groups: a small
      range, and then all others so that every group gets no more than it must have. */
  lemma {:induction false} TooManyGroups(quarter: nat, big: nat, atLeast: nat, max: nat) returns (sizes: seq<nat>)
    requires quarter > 0 && max > 0 && big <= atLeast && !RoomFor(big, atLeast, max)
    ensures |sizes| - 1 > max && Counts(sizes, quarter, big, atLeast)
    ensures NumGroups(sizes, quarter, PerBig(big, max), 0) > max
  {
    var per := PerBig(big, max);
    PerIsPositive(big, max);
    EnoughToFill(big, atLeast, max, per);
    sizes := Overfull(quarter, big, atLeast, max, per);
  }

  lemma {:induction false} Overfull(quarter: nat, big: nat, atLeast: nat, max: nat, per: nat) returns (sizes: seq<nat>)
    requires quarter > 0 && per >= 1 && 1 <= max <= big <= atLeast && atLeast - max - per >= Need(per, max)
    ensures |sizes| - 1 > max && Counts(sizes, quarter, big, atLeast) && NumGroups(sizes, quarter, per, 0) > max
  {
    var fill := Fill(quarter, big - max, atLeast - big);
    FillCounts(quarter, big - max, atLeast - big);
    var a, b := fill[..per], fill[per..];
    sizes := [quarter - 1] + a + Blocks(quarter, b, per, max);
    assert fill == a + b;
    BlocksAreMany(quarter, b, per, max);
    AllCounted(quarter, a, b, per, max, big, atLeast);
    FirstThenBlocks(sizes, quarter, per, a, b, max);
  }

  lemma {:induction false} BlocksAreMany(quarter: nat, fill: seq<nat>, per: nat, m: nat)
    requires per >= 1 && m >= 1 && |fill| >= Need(per, m)
    ensures |Blocks(quarter, fill, per, m)| >= m
    decreases m
  {
    if m > 1 {
      BlocksAreMany(quarter, fill[per - 1..], per, m - 1);
    }
  }

  lemma {:induction false} PerIsPositive(big: nat, max: nat)
    requires big >= max >= 1
    ensures PerBig(big, max) >= 1
  {
    assert (big - 1) / max >= 0;
  }

  lemma {:induction false} AllCounted(quarter: nat, a: seq<nat>, b: seq<nat>, per: nat, max: nat, big: nat,
      atLeast: nat)
    requires quarter > 0 && per >= 1 && 1 <= max <= big <= atLeast && |b| >= Need(per, max)
    requires Counts(a + b, quarter, big - max, atLeast - max)
    ensures Counts([quarter - 1] + a + Blocks(quarter, b, per, max), quarter, big, atLeast)
  {
    var x, y := Big(a, quarter, 0, |a|), Big(a, quarter - 1, 0, |a|);
    BigJoins(a, b, quarter);
    BigJoins(a, b, quarter - 1);
    BlocksCount(quarter, b, per, max, big - max - x, atLeast - max - y);
    CountsOfOne(quarter - 1, quarter);
    CountsJoin([quarter - 1], a, quarter, 0, 0, x, y);
    CountsJoin([quarter - 1] + a, Blocks(quarter, b, per, max), quarter, x, y, big - x, atLeast - y);
  }

  lemma {:induction false} FirstThenBlocks(sizes: seq<nat>, quarter: nat, per: nat, a: seq<nat>, b: seq<nat>, m: nat)
    requires quarter > 0 && per >= 1 && m >= 1 && |a| == per && |b| >= Need(per, m)
    requires (forall q :: 0 <= q < |a| ==> a[q] >= quarter) && forall q :: 0 <= q < |b| ==> b[q] >= quarter
    requires sizes == [quarter - 1] + a + Blocks(quarter, b, per, m)
    ensures NumGroups(sizes, quarter, per, 0) > m
  {
    BlocksAre([quarter - 1] + a, quarter, b, per, m);
    FirstThenInBlocks(sizes, quarter, per, a, Blocks(quarter, b, per, m), m);
  }

  lemma {:induction false} FirstThenInBlocks(sizes: seq<nat>, quarter: nat, per: nat, a: seq<nat>, rest: seq<nat>,
      m: nat)
    requires quarter > 0 && per >= 1 && m >= 1 && |a| == per && forall q :: 0 <= q < |a| ==> a[q] >= quarter
    requires sizes == [quarter - 1] + a + rest && InBlocks(sizes, quarter, per, per + 1, m)
    ensures NumGroups(sizes, quarter, per, 0) > m
  {
    BlocksMakeGroups(sizes, quarter, per, per + 1, m);
    FirstEnds(sizes, quarter, per, a, rest);
  }

  lemma {:induction false} FirstEnds(sizes: seq<nat>, quarter: nat, per: nat, a: seq<nat>, rest: seq<nat>)
    requires quarter > 0 && |a| == per && forall q :: 0 <= q < |a| ==> a[q] >= quarter
    requires sizes == [quarter - 1] + a + rest && per + 1 < |sizes| && sizes[per + 1] > quarter
    ensures NextGroup(sizes, quarter, per, 0) == per + 1
  {
    forall q | 0 < q <= per
      ensures sizes[q] >= quarter
    {
      assert sizes[q] == a[q - 1];
    }
    assert sizes[0] == quarter - 1;
    GroupRuns(sizes, quarter, per, 0, 0, per);
  }

  /** Every list with these counts is cut into no more than `max` groups exactly when there is room. */
  lemma {:induction false} FewGroupsExactly(quarter: nat, big: nat, atLeast: nat, max: nat)
    requires quarter > 0 && max > 0 && big <= atLeast
    ensures (forall sizes :: sizes != [] && Counts(sizes, quarter, big, atLeast) ==>
               NumGroups(sizes, quarter, PerBig(big, max), 0) <= max)
       <==> RoomFor(big, atLeast, max)
  {
    if RoomFor(big, atLeast, max) {
      forall sizes | sizes != [] && Counts(sizes, quarter, big, atLeast)
        ensures NumGroups(sizes, quarter, PerBig(big, max), 0) <= max
      {
        FewGroups(sizes, quarter, max);
      }
    } else {
      var sizes := TooManyGroups(quarter, big, atLeast, max);
    }
  }

  /** One range of exactly a quarter is enough to break the bound. */
  lemma {:induction false} QuarterBreaksBound()
    ensures NumGroups([2, 1, 2, 2, 2], 1, PerGroup([2, 1, 2, 2, 2], 1, 2), 0) > 2
  {
    var sizes := [2, 1, 2, 2, 2];
    assert Big(sizes, 1, 0, 2) == 1 && Big(sizes, 1, 0, 4) == 3 && Big(sizes, 1, 0, 5) == 4;
    assert PerGroup(sizes, 1, 2) == 2;
    assert GroupEnd(sizes, 1, 2, 0, 1) == 1 && GroupEnd(sizes, 1, 2, 2, 1) == 3;
    assert NumGroups(sizes, 1, 2, 2) >= 2;
  }
}
