/**
 A compaction split into ranges, from its input files to its outputs.
 */
module SplitCompaction {
  import opened Keys
  import opened ReadSets
  import opened Versions
  import opened Subcompaction
  import Merge

  // ----- The boundaries -----

  /** The boundaries are where the files of the output level begin, all but the first. */
  method GenSubcompactionBoundaries(in1: seq<File>) returns (bounds: seq<UserKey>, sizes: seq<nat>)
    requires in1 != []
    ensures |sizes| == |in1| && forall i :: 0 <= i < |in1| ==> sizes[i] == in1[i].size
    ensures |bounds| == |in1| - 1 && forall i :: 0 <= i < |bounds| ==> bounds[i] == in1[i + 1].smallest.user
  {
    bounds, sizes := [], [in1[0].size];
    for i := 1 to |in1|
      invariant |sizes| == i && forall k :: 0 <= k < i ==> sizes[k] == in1[k].size
      invariant |bounds| == i - 1 && forall k :: 0 <= k < |bounds| ==> bounds[k] == in1[k + 1].smallest.user
    {
      bounds := bounds + [in1[i].smallest.user];
      sizes := sizes + [in1[i].size];
    }
  }

  /** The files are in the order of their first keys, and what they hold is part of the input.  Neighbours may
      share user keys, and the largest key of a file need not be one it holds. */
  ghost predicate FilesOf(in1: seq<File>, es: seq<Entry>) {
    && (forall f :: f in in1 ==>
          f.entries != [] && f.smallest == f.entries[0].key && forall e :: e in f.entries ==> e in es)
    && forall i, j :: 0 <= i < j < |in1| ==> in1[i].smallest.user <= in1[j].smallest.user
  }

  /** No two files but the first begin with the same user key. */
  ghost predicate StartsDiffer(in1: seq<File>) {
    forall i, j :: 0 < i < j < |in1| ==> in1[i].smallest.user != in1[j].smallest.user
  }

  ghost predicate Increase(bounds: seq<UserKey>) {
    forall i, j :: 0 <= i < j < |bounds| ==> bounds[i] < bounds[j]
  }

  lemma {:induction false} BoundariesFit(in1: seq<File>, es: seq<Entry>, bounds: seq<UserKey>)
    requires in1 != [] && FilesOf(in1, es)
    requires |bounds| == |in1| - 1 && forall i :: 0 <= i < |bounds| ==> bounds[i] == in1[i + 1].smallest.user
    ensures BoundsOk(es, bounds) && (Increase(bounds) <==> StartsDiffer(in1))
  {
    forall i | 0 <= i < |bounds|
      ensures Present(es, bounds[i])
    {
      var f := in1[i + 1];
      assert f in in1;
      assert f.entries[0] in f.entries;
    }
    if Increase(bounds) {
      forall i, j | 0 < i < j < |in1|
        ensures in1[i].smallest.user != in1[j].smallest.user
      {
        assert bounds[i - 1] < bounds[j - 1];
      }
    }
  }

  lemma {:induction false} LastsAscend(groups: seq<Group>, sizes: seq<nat>, from: nat, i: nat)
    requires from <= |sizes| && Tiles(groups, sizes, from) && i < |groups|
    ensures from <= groups[i].last < |sizes| && (i + 1 == |groups| <==> groups[i].last + 1 == |sizes|)
    ensures forall j :: i < j < |groups| ==> groups[i].last < groups[j].last
    decreases |groups|
  {
    var next := groups[0].last + 1;
    if i > 0 {
      LastsAscend(groups[1..], sizes, next, i - 1);
      assert groups[i] == groups[1..][i - 1];
      assert forall j :: i < j < |groups| ==> groups[j] == groups[1..][j - 1];
    } else {
      forall j | 0 < j < |groups|
        ensures groups[0].last < groups[j].last < |sizes|
      {
        LastsAscend(groups[1..], sizes, next, j - 1);
        assert groups[j] == groups[1..][j - 1];
      }
    }
  }

  /** The boundaries at which the groups end. */
  method GroupBounds(bounds: seq<UserKey>, sizes: seq<nat>, groups: seq<Group>, ghost es: seq<Entry>)
      returns (r: seq<UserKey>)
    requires |sizes| == |bounds| + 1 && Tiles(groups, sizes, 0) && BoundsOk(es, bounds)
    ensures |r| + 1 == |groups| && BoundsOk(es, r) && (Increase(bounds) ==> Increase(r))
    ensures forall k :: 0 <= k < |r| ==> groups[k].last < |bounds| && r[k] == bounds[groups[k].last]
  {
    r := [];
    for i := 0 to |groups| - 1
      invariant |r| == i
      invariant forall k :: 0 <= k < i ==> groups[k].last < |bounds| && r[k] == bounds[groups[k].last]
    {
      LastsAscend(groups, sizes, 0, i);
      r := r + [bounds[groups[i].last]];
    }
    forall i, j | 0 <= i < j < |r|
      ensures r[i] <= r[j] && (Increase(bounds) ==> r[i] < r[j])
    {
      LastsAscend(groups, sizes, 0, i);
      assert groups[i].last < groups[j].last;
    }
  }

  lemma {:induction false} SliceSorted(es: seq<Entry>, starts: seq<nat>, ends: seq<nat>, parts: seq<seq<Entry>>, i: nat)
    requires Sorted(es) && Sliced(es, starts, ends, parts) && i < |parts|
    ensures Sorted(parts[i])
  {
    var p, c := parts[i], starts[i];
    assert p == es[c..ends[i]];
    assert forall k :: 0 <= k < |p| ==> p[k] == es[c + k];
  }

  function SizesOf(in1: seq<File>): seq<nat> {
    seq(|in1|, i requires 0 <= i < |in1| => in1[i].size)
  }

  /** Each boundary is where the file behind a group begins. */
  ghost predicate EndsOfGroups(in1: seq<File>, groups: seq<Group>, bounds: seq<UserKey>) {
    && Tiles(groups, SizesOf(in1), 0) && |groups| == |bounds| + 1
    && forall k :: 0 <= k < |bounds| ==>
         0 <= groups[k].last < |in1| - 1 && bounds[k] == in1[groups[k].last + 1].smallest.user
  }

  /** The first entries of the files of a group, but for its first file, are in the part. */
  ghost predicate BeginIn(in1: seq<File>, g: Group, part: seq<Entry>) {
    forall i :: g.first < i <= g.last ==> FirstIn(in1, i, part)
  }

  ghost predicate FirstIn(in1: seq<File>, i: nat, part: seq<Entry>) {
    i < |in1| && in1[i].entries != [] && in1[i].entries[0] in part
  }

  /** A range takes every entry strictly between its boundaries. */
  ghost predicate TakesInner(es: seq<Entry>, bounds: seq<UserKey>, parts: seq<seq<Entry>>, k: nat)
    requires k < |parts|
  {
    forall e :: e in es && Between(bounds, k, e.key.user) ==> e in parts[k]
  }

  lemma {:induction false} InnerTaken(es: seq<Entry>, bounds: seq<UserKey>, starts: seq<nat>, ends: seq<nat>,
      parts: seq<seq<Entry>>, k: nat)
    requires Sorted(es) && BoundsOk(es, bounds) && Cuts(es, bounds, starts, ends, parts) && k < |parts|
    ensures TakesInner(es, bounds, parts, k)
  {
    forall e | e in es && Between(bounds, k, e.key.user)
      ensures e in parts[k]
    {
      TakesBetween(es, bounds, starts, ends, parts, k, e);
    }
  }

  lemma {:induction false} GroupsAdjoin(groups: seq<Group>, sizes: seq<nat>, from: nat, k: nat)
    requires from <= |sizes| && Tiles(groups, sizes, from) && k < |groups|
    ensures groups[k].first == (if k == 0 then from else groups[k - 1].last + 1) <= groups[k].last < |sizes|
    decreases |groups|
  {
    if k > 0 {
      GroupsAdjoin(groups[1..], sizes, groups[0].last + 1, k - 1);
      assert groups[1..][k - 1] == groups[k];
      assert k > 1 ==> groups[1..][k - 2] == groups[k - 1];
    }
  }

  /** A file inside a group begins strictly between the boundaries of its range. */
  lemma {:induction false} FileInGroup(in1: seq<File>, es: seq<Entry>, groups: seq<Group>, bounds: seq<UserKey>, k: nat,
      i: nat)
    requires FilesOf(in1, es) && StartsDiffer(in1) && EndsOfGroups(in1, groups, bounds) && k < |groups|
    requires groups[k].first < i <= groups[k].last
    ensures i < |in1| && Between(bounds, k, in1[i].smallest.user)
    ensures in1[i].entries != [] && in1[i].entries[0].key == in1[i].smallest && in1[i].entries[0] in es
  {
    GroupsAdjoin(groups, SizesOf(in1), 0, k);
    assert in1[i] in in1;
    assert in1[i].entries[0] in in1[i].entries;
    if k > 0 {
      assert in1[groups[k].first].smallest.user <= in1[i].smallest.user;
    }
    if k < |bounds| {
      assert in1[i].smallest.user <= in1[groups[k].last + 1].smallest.user;
    }
  }

  /** DoCompactionWorkWithSubcompaction: the ranges the merged input is taken in.  Together they take every
      entry.  They take it only once exactly when no boundary is repeated; there are no more of them than
      allowed when there is room.  Range `k` has the files of group `k`: all but the first of them begin in it. */
  method Ranges(es: seq<Entry>, in1: seq<File>, quarter: nat, max: nat)
      returns (parts: seq<seq<Entry>>, ghost bounds: seq<UserKey>, ghost groups: seq<Group>)
    requires Sorted(es) && in1 != [] && FilesOf(in1, es) && max > 0
    ensures |parts| == |bounds| + 1 && forall i :: 0 <= i < |parts| ==> Sorted(parts[i])
    ensures Entries(Flatten(parts)) == Entries(es)
    ensures Flatten(parts) == es <==> forall i :: 0 <= i < |bounds| ==> !Doubles(es, bounds, i)
    ensures StartsDiffer(in1) ==> Flatten(parts) == es
    ensures EndsOfGroups(in1, groups, bounds)
    ensures forall k :: 0 <= k < |parts| ==> TakesInner(es, bounds, parts, k)
    ensures |parts| == |groups| && (StartsDiffer(in1) ==>
              forall k :: 0 <= k < |groups| ==> BeginIn(in1, groups[k], parts[k]))
    ensures |in1| - 1 <= max ==> |parts| == |in1|
    ensures |in1| - 1 > max ==>
              forall g :: g in groups ==>
                GroupRule(SizesOf(in1), quarter, PerGroup(SizesOf(in1), quarter, max), g.first, g.last)
    ensures var sizes := SizesOf(in1);
            |in1| - 1 > max && RoomFor(Big(sizes, quarter, 0, |in1|), Big(sizes, quarter - 1, 0, |in1|), max) ==>
              |parts| <= max
  {
    var r;
    r, groups := ChooseBounds(in1, quarter, max, es);
    bounds := r;
    parts := TakeRanges(es, r);
    if StartsDiffer(in1) {
      FilesInGroups(in1, es, groups, bounds, parts);
    }
  }

  lemma {:induction false} FilesInGroups(in1: seq<File>, es: seq<Entry>, groups: seq<Group>, bounds: seq<UserKey>,
      parts: seq<seq<Entry>>)
    requires FilesOf(in1, es) && StartsDiffer(in1) && EndsOfGroups(in1, groups, bounds) && |parts| == |groups|
    requires forall k :: 0 <= k < |parts| ==> TakesInner(es, bounds, parts, k)
    ensures forall k :: 0 <= k < |groups| ==> BeginIn(in1, groups[k], parts[k])
  {
    forall k | 0 <= k < |groups|
      ensures BeginIn(in1, groups[k], parts[k])
    {
      GroupBeginsIn(in1, es, groups, bounds, parts, k);
    }
  }

  lemma {:induction false} GroupBeginsIn(in1: seq<File>, es: seq<Entry>, groups: seq<Group>, bounds: seq<UserKey>,
      parts: seq<seq<Entry>>, k: nat)
    requires FilesOf(in1, es) && StartsDiffer(in1) && EndsOfGroups(in1, groups, bounds) && k < |parts| == |groups|
    requires TakesInner(es, bounds, parts, k)
    ensures BeginIn(in1, groups[k], parts[k])
  {
    forall i | groups[k].first < i <= groups[k].last
      ensures FirstIn(in1, i, parts[k])
    {
      FileInGroup(in1, es, groups, bounds, k, i);
      var e := in1[i].entries[0];
      assert e in es && Between(bounds, k, e.key.user);
    }
  }

  method GroupFiles(sizes: seq<nat>, quarter: nat, max: nat) returns (groups: seq<Group>)
    requires sizes != [] && max > 0
    ensures Tiles(groups, sizes, 0) && (|sizes| - 1 <= max ==> |groups| == |sizes|)
    ensures |sizes| - 1 > max ==>
              forall g :: g in groups ==> GroupRule(sizes, quarter, PerGroup(sizes, quarter, max), g.first, g.last)
    ensures |sizes| - 1 > max && RoomFor(Big(sizes, quarter, 0, |sizes|), Big(sizes, quarter - 1, 0, |sizes|), max) ==>
              |groups| <= max
  {
    groups := MakeGroups(sizes, quarter, max);
    if |sizes| - 1 > max && RoomFor(Big(sizes, quarter, 0, |sizes|), Big(sizes, quarter - 1, 0, |sizes|), max) {
      FewGroups(sizes, quarter, max);
    }
  }

  /** The boundaries the input is cut at: the ends of the groups. */
  method ChooseBounds(in1: seq<File>, quarter: nat, max: nat, ghost es: seq<Entry>)
      returns (r: seq<UserKey>, ghost groups: seq<Group>)
    requires in1 != [] && FilesOf(in1, es) && max > 0
    ensures BoundsOk(es, r) && EndsOfGroups(in1, groups, r) && (StartsDiffer(in1) ==> Increase(r))
    ensures |in1| - 1 <= max ==> |groups| == |in1|
    ensures |in1| - 1 > max ==>
              forall g :: g in groups ==>
                GroupRule(SizesOf(in1), quarter, PerGroup(SizesOf(in1), quarter, max), g.first, g.last)
    ensures var sizes := SizesOf(in1);
            |in1| - 1 > max && RoomFor(Big(sizes, quarter, 0, |in1|), Big(sizes, quarter - 1, 0, |in1|), max) ==>
              |groups| <= max
  {
    var all, sizes := GenSubcompactionBoundaries(in1);
    assert sizes == SizesOf(in1);
    BoundariesFit(in1, es, all);
    var gs := GroupFiles(sizes, quarter, max);
    r := GroupBounds(all, sizes, gs, es);
    groups := gs;
  }

  method TakeRanges(es: seq<Entry>, bounds: seq<UserKey>) returns (parts: seq<seq<Entry>>)
    requires Sorted(es) && BoundsOk(es, bounds)
    ensures |parts| == |bounds| + 1 && forall i :: 0 <= i < |parts| ==> Sorted(parts[i])
    ensures Entries(Flatten(parts)) == Entries(es)
    ensures Flatten(parts) == es <==> forall i :: 0 <= i < |bounds| ==> !Doubles(es, bounds, i)
    ensures Increase(bounds) ==> Flatten(parts) == es
    ensures forall k :: 0 <= k < |parts| ==> TakesInner(es, bounds, parts, k)
  {
    ghost var starts, ends;
    parts, starts, ends := TakeAll(es, bounds);
    PartitionExactly(es, bounds, starts, ends, parts);
    SlicesCover(es, starts, ends, parts);
    forall i | 0 <= i < |parts|
      ensures Sorted(parts[i])
    {
      SliceSorted(es, starts, ends, parts, i);
    }
    forall k | 0 <= k < |parts|
      ensures TakesInner(es, bounds, parts, k)
    {
      InnerTaken(es, bounds, starts, ends, parts, k);
    }
    forall i | 0 <= i < |bounds| && Increase(bounds)
      ensures !Doubles(es, bounds, i)
    {
      assert i > 0 ==> bounds[i - 1] < bounds[i];
    }
  }

  /** Three files that begin with the same user key: the entry behind its first one is taken twice. */
  lemma {:induction false} RepeatedBoundary(a: Entry, b: Entry)
    requires a.key == IKey(2.0, 9, Value) && b.key == IKey(2.0, 8, Value)
    ensures BoundsOk([a, b], [2.0, 2.0]) && Doubles([a, b], [2.0, 2.0], 1)
  {
    assert a in [a, b];
    assert LeadingBelow([a, b], 2.0, 0) == 0;
  }

  // ----- The outputs -----

  /** What all ranges have written. */
  function Together(outs: seq<seq<Merge.Table>>): seq<Entry> {
    if outs == [] then [] else Together(outs[..|outs| - 1]) + Merge.Concat(outs[|outs| - 1])
  }

  /** The tables of all ranges, one behind the other. */
  function AllTables(outs: seq<seq<Merge.Table>>): seq<Merge.Table> {
    if outs == [] then [] else AllTables(outs[..|outs| - 1]) + outs[|outs| - 1]
  }

  /** Each range has written its part. */
  ghost predicate AllWrite(outs: seq<seq<Merge.Table>>, parts: seq<seq<Entry>>, snapshots: seq<nat>) {
    && |outs| == |parts| == |snapshots|
    && forall i :: 0 <= i < |outs| ==> Merge.Writes(outs[i], parts[i], Some(snapshots[i]))
  }

  /** A whole compaction in ranges, each with the smallest snapshot `snapshot(i)` it found: every read not older
      than any of these finds in the outputs what it finds in the input, and unless files begin with the same
      user key the tables of all ranges are one run. */
  method CompactInRanges(es: seq<Entry>, in1: seq<File>, quarter: nat, max: nat, snapshot: nat -> nat,
      size: seq<Entry> -> nat, cap: nat)
      returns (outs: seq<seq<Merge.Table>>, ghost parts: seq<seq<Entry>>, ghost snapshots: seq<nat>)
    requires Sorted(es) && in1 != [] && FilesOf(in1, es) && max > 0
    requires forall i :: snapshot(i) < Merge.MAX_SEQUENCE
    ensures Entries(Flatten(parts)) == Entries(es) && AllWrite(outs, parts, snapshots)
    ensures forall i :: 0 <= i < |outs| ==> snapshots[i] == snapshot(i) && Merge.CutBySize(outs[i], size, cap)
    ensures forall s: nat :: (forall i :: 0 <= i < |outs| ==> snapshot(i) <= s) ==>
              SameReads(Entries(es), Entries(Together(outs)), s)
    ensures StartsDiffer(in1) ==> Sorted(Together(outs)) && Merge.RunOf(AllTables(outs))
  {
    ghost var bounds, groups;
    var ranges;
    ranges, bounds, groups := Ranges(es, in1, quarter, max);
    outs, snapshots := CompactParts(ranges, snapshot, size, cap);
    parts := ranges;
    TogetherIsMerged(outs, parts, snapshots);
    SortedIsProper(es);
    AllReadAlike(parts, snapshots);
    if StartsDiffer(in1) {
      OutputsSorted(parts, snapshots);
      RunsJoin(outs, parts, snapshots);
    }
  }

  /** Each range merged by a thread of its own. */
  method CompactParts(parts: seq<seq<Entry>>, snapshot: nat -> nat, size: seq<Entry> -> nat, cap: nat)
      returns (outs: seq<seq<Merge.Table>>, ghost snapshots: seq<nat>)
    requires forall i :: 0 <= i < |parts| ==> Sorted(parts[i])
    requires forall i :: snapshot(i) < Merge.MAX_SEQUENCE
    ensures AllWrite(outs, parts, snapshots) && forall i :: 0 <= i < |parts| ==> snapshots[i] == snapshot(i)
    ensures forall i :: 0 <= i < |parts| ==> Merge.CutBySize(outs[i], size, cap)
  {
    snapshots := seq(|parts|, i requires 0 <= i < |parts| => snapshot(i));
    outs := [];
    for i := 0 to |parts|
      invariant |outs| == i && forall k :: 0 <= k < i ==> Merge.Writes(outs[k], parts[k], Some(snapshots[k]))
      invariant forall k :: 0 <= k < i ==> Merge.CutBySize(outs[k], size, cap)
    {
      var ts := Merge.CompactOnCompute(parts[i], snapshot(i), size, cap);
      outs := outs + [ts];
    }
  }

  lemma {:induction false} TogetherIsMerged(outs: seq<seq<Merge.Table>>, parts: seq<seq<Entry>>, snapshots: seq<nat>)
    requires AllWrite(outs, parts, snapshots)
    ensures Together(outs) == Merged(parts, snapshots)
  {
    if outs != [] {
      var n := |outs| - 1;
      TogetherIsMerged(outs[..n], parts[..n], snapshots[..n]);
    }
  }

  lemma {:induction false} AllReadAlike(parts: seq<seq<Entry>>, snapshots: seq<nat>)
    requires |snapshots| == |parts| && forall i :: 0 <= i < |parts| ==> Sorted(parts[i])
    requires Proper(Entries(Flatten(parts)))
    ensures forall s: nat :: (forall i :: 0 <= i < |snapshots| ==> snapshots[i] <= s) ==>
              SameReads(Entries(Flatten(parts)), Entries(Merged(parts, snapshots)), s)
  {
    forall s: nat | forall i :: 0 <= i < |snapshots| ==> snapshots[i] <= s
      ensures SameReads(Entries(Flatten(parts)), Entries(Merged(parts, snapshots)), s)
    {
      OutputsReadAlike(parts, snapshots, s);
    }
  }

  // ----- One run -----

  /** The table begins with one of the entries, and one of them is not before its largest key. */
  ghost predicate Lies(t: Merge.Table, es: seq<Entry>) {
    (exists e :: e in es && t.smallest == e.key) && (exists e :: e in es && !Less(e.key, t.largest))
  }

  ghost predicate Within(ts: seq<Merge.Table>, es: seq<Entry>) {
    forall t :: t in ts ==> Lies(t, es)
  }

  lemma {:induction false} WritesWithin(ts: seq<Merge.Table>, es: seq<Entry>, snapshot: Option<nat>)
    requires Merge.Writes(ts, es, snapshot)
    ensures Within(ts, es)
  {
    forall t | t in ts
      ensures Lies(t, es)
    {
      var i :| 0 <= i < |ts| && ts[i] == t;
      TableLies(ts, es, snapshot, i);
    }
  }

  lemma {:induction false} TableLies(ts: seq<Merge.Table>, es: seq<Entry>, snapshot: Option<nat>, i: nat)
    requires Merge.Writes(ts, es, snapshot) && i < |ts|
    ensures Lies(ts[i], es)
  {
    var e := FirstOfTable(ts, es, snapshot, i);
    LastKeyBehind(ts, es[|es| - 1].key, i);
    assert e in es && es[|es| - 1] in es;
  }

  lemma {:induction false} FirstOfTable(ts: seq<Merge.Table>, es: seq<Entry>, snapshot: Option<nat>, i: nat)
      returns (e: Entry)
    requires Merge.RunOf(ts) && Merge.Concat(ts) == Merge.Survivors(es, snapshot, |es|) && i < |ts|
    ensures e in es && ts[i].smallest == e.key
  {
    e := ts[i].entries[0];
    Merge.ConcatIndex(ts, i, 0);
    Merge.SurvivorsAreKept(es, snapshot, |es|);
  }

  lemma {:induction false} LastKeyBehind(ts: seq<Merge.Table>, last: IKey, i: nat)
    requires Merge.RunOf(ts) && i < |ts| && !Less(last, ts[|ts| - 1].largest)
    ensures !Less(last, ts[i].largest)
  {
    var n := |ts| - 1;
    if i < n {
      assert Less(ts[i].largest, ts[n].smallest);
      BoundsInOrder(ts[n]);
    }
  }

  lemma {:induction false} BoundsInOrder(t: Merge.Table)
    requires Merge.TightBounds(t)
    ensures !Less(t.largest, t.smallest)
  {
    Merge.EntriesWithinBounds(t, 0);
  }

  lemma {:induction false} LiesStill(t: Merge.Table, a: seq<Entry>, b: seq<Entry>)
    requires Lies(t, a) && forall e :: e in a ==> e in b
    ensures Lies(t, b)
  {
    var e :| e in a && t.smallest == e.key;
    var f :| f in a && !Less(f.key, t.largest);
    assert e in b && f in b;
  }

  lemma {:induction false} LiesBefore(t: Merge.Table, u: Merge.Table, a: seq<Entry>, b: seq<Entry>)
    requires Lies(t, a) && Lies(u, b) && forall x, y :: x in a && y in b ==> Less(x.key, y.key)
    ensures Less(t.largest, u.smallest)
  {
    var e :| e in a && !Less(e.key, t.largest);
    var f :| f in b && u.smallest == f.key;
    assert Less(e.key, f.key);
  }

  lemma {:induction false} RunsFollow(ts: seq<Merge.Table>, us: seq<Merge.Table>, a: seq<Entry>, b: seq<Entry>)
    requires Merge.RunOf(ts) && Merge.RunOf(us) && Within(ts, a) && Within(us, b) && Sorted(a + b)
    ensures Merge.RunOf(ts + us) && Within(ts + us, a + b)
  {
    SortedParts(a, b);
    forall i, j | 0 <= i < |ts| && 0 <= j < |us|
      ensures Less(ts[i].largest, us[j].smallest)
    {
      LiesBefore(ts[i], us[j], a, b);
    }
    forall t | t in ts + us
      ensures Lies(t, a + b)
    {
      LiesStill(t, if t in ts then a else b, a + b);
    }
  }

  /** The tables of ranges that partition the input are one run by their recorded bounds. */
  lemma {:induction false} RunsJoin(outs: seq<seq<Merge.Table>>, parts: seq<seq<Entry>>, snapshots: seq<nat>)
    requires AllWrite(outs, parts, snapshots) && Sorted(Flatten(parts))
    ensures Merge.RunOf(AllTables(outs)) && Within(AllTables(outs), Flatten(parts))
  {
    if outs != [] {
      var n := |outs| - 1;
      SortedParts(Flatten(parts[..n]), parts[n]);
      RunsJoin(outs[..n], parts[..n], snapshots[..n]);
      WritesWithin(outs[n], parts[n], Some(snapshots[n]));
      RunsFollow(AllTables(outs[..n]), outs[n], Flatten(parts[..n]), parts[n]);
    }
  }

  // ----- Compared with the merge of the whole input -----

  lemma {:induction false} SurvivorsOfFront(a: seq<Entry>, b: seq<Entry>, snapshot: Option<nat>, n: nat)
    requires n <= |a|
    ensures Merge.Survivors(a + b, snapshot, n) == Merge.Survivors(a, snapshot, n)
  {
    if n > 0 {
      SurvivorsOfFront(a, b, snapshot, n - 1);
    }
  }

  /** The first entry of a range is kept; the whole merge may drop it. */
  lemma {:induction false} SurvivorsOfBoth(a: seq<Entry>, b: seq<Entry>, snapshot: Option<nat>, n: nat)
    requires 0 < n <= |b|
    ensures var w := Merge.Survivors(b, snapshot, n);
            && w != [] && Merge.Survivors(a + b, snapshot, |a| + n) ==
                            Merge.Survivors(a, snapshot, |a|) + if Merge.Kept(a + b, snapshot, |a|) then w else w[1..]
  {
    if n == 1 {
      SurvivorsOfFront(a, b, snapshot, |a|);
      assert Merge.Survivors(b, snapshot, 0) == [];
    } else {
      SurvivorsOfBoth(a, b, snapshot, n - 1);
      assert Merge.Kept(a + b, snapshot, |a| + n - 1) == Merge.Kept(b, snapshot, n - 1);
    }
  }

  /** The first entry of range `i` is one that the merge of the whole input keeps too. */
  ghost predicate FirstStays(parts: seq<seq<Entry>>, snapshot: nat, i: nat)
    requires i < |parts|
  {
    var a := Flatten(parts[..i]);
    parts[i] != [] ==> Merge.Kept(a + parts[i], Some(snapshot), |a|)
  }

  function Same(n: nat, snapshot: nat): seq<nat> {
    seq(n, _ => snapshot)
  }

  /** The merge of the whole writes no more than `out`, and `out` exactly when it writes as much. */
  ghost predicate AtLeast(out: seq<Entry>, whole: seq<Entry>) {
    |out| >= |whole| && (|out| == |whole| ==> out == whole)
  }

  lemma {:induction false} OneMorePart(a: seq<Entry>, b: seq<Entry>, snapshot: Option<nat>, out: seq<Entry>)
    requires AtLeast(out, Merge.Survivors(a, snapshot, |a|))
    ensures var more, whole := out + Merge.Survivors(b, snapshot, |b|), Merge.Survivors(a + b, snapshot, |a + b|);
            && AtLeast(more, whole)
            && (|more| == |whole| <==> |out| == |Merge.Survivors(a, snapshot, |a|)|
                                       && (b != [] ==> Merge.Kept(a + b, snapshot, |a|)))
  {
    if b == [] {
      assert a + b == a;
      assert out + [] == out;
    } else {
      SurvivorsOfBoth(a, b, snapshot, |b|);
    }
  }

  ghost predicate AllStay(parts: seq<seq<Entry>>, snapshot: nat) {
    forall i :: 0 <= i < |parts| ==> FirstStays(parts, snapshot, i)
  }

  lemma {:induction false} AllStayOneLess(parts: seq<seq<Entry>>, snapshot: nat)
    requires parts != []
    ensures var n := |parts| - 1;
            AllStay(parts, snapshot) <==> AllStay(parts[..n], snapshot) && FirstStays(parts, snapshot, n)
  {
    var n := |parts| - 1;
    var rest := parts[..n];
    forall i | 0 <= i < n
      ensures FirstStays(rest, snapshot, i) <==> FirstStays(parts, snapshot, i)
    {
      assert rest[..i] == parts[..i];
    }
  }

  lemma {:induction false} SplitKeepsMore(parts: seq<seq<Entry>>, snapshot: nat)
    ensures var out, es := Merged(parts, Same(|parts|, snapshot)), Flatten(parts);
            var whole := Merge.Survivors(es, Some(snapshot), |es|);
            AtLeast(out, whole) && (|out| == |whole| <==> AllStay(parts, snapshot))
  {
    if parts != [] {
      var n := |parts| - 1;
      var rest, last := parts[..n], parts[n];
      SplitKeepsMore(rest, snapshot);
      AllStayOneLess(parts, snapshot);
      assert Same(|parts|, snapshot)[..n] == Same(n, snapshot);
      OneMorePart(Flatten(rest), last, Some(snapshot), Merged(rest, Same(n, snapshot)));
    }
  }

  /** Split and unsplit merge write the same entries if and only if the unsplit one keeps the entry behind every
      cut. */
  lemma {:induction false} SplitIsWhole(parts: seq<seq<Entry>>, snapshot: nat)
    ensures Merged(parts, Same(|parts|, snapshot)) == Merge.Survivors(Flatten(parts), Some(snapshot), |Flatten(parts)|)
       <==> AllStay(parts, snapshot)
  {
    SplitKeepsMore(parts, snapshot);
  }

  // ----- User keys on both sides of a cut -----

  ghost predicate HasUser(out: seq<Entry>, user: UserKey) {
    exists e :: e in out && e.key.user == user
  }

  lemma {:induction false} LastOfPart(es: seq<Entry>, snapshot: Option<nat>, before: seq<Entry>)
    requires es != [] && Sorted(es)
    ensures HasUser(before + Merge.Survivors(es, snapshot, |es|), es[|es| - 1].key.user)
  {
    Merge.LastKept(es, snapshot, |es|);
    var w := Merge.Survivors(es, snapshot, |es|);
    assert w[|w| - 1] in before + w;
  }

  lemma {:induction false} LastUserSurvives(parts: seq<seq<Entry>>, snapshots: seq<nat>)
    requires Sorted(Flatten(parts)) && |snapshots| == |parts| && Flatten(parts) != []
    ensures HasUser(Merged(parts, snapshots), Flatten(parts)[|Flatten(parts)| - 1].key.user)
  {
    var n := |parts| - 1;
    var rest, last := parts[..n], parts[n];
    var before := Merged(rest, snapshots[..n]);
    if last == [] {
      assert Flatten(parts) == Flatten(rest);
      LastUserSurvives(rest, snapshots[..n]);
      assert Merged(parts, snapshots) == before;
    } else {
      SortedParts(Flatten(rest), last);
      LastOfPart(last, Some(snapshots[n]), before);
    }
  }

  /** What a range writes has no user key in common with what the ranges before it write. */
  ghost predicate OutputsApart(parts: seq<seq<Entry>>, snapshots: seq<nat>, i: nat)
    requires |snapshots| == |parts| && i < |parts|
  {
    Apart(Merged(parts[..i], snapshots[..i]), Merge.Survivors(parts[i], Some(snapshots[i]), |parts[i]|))
  }

  ghost predicate Apart(a: seq<Entry>, b: seq<Entry>) {
    forall x, y :: x in a && y in b ==> x.key.user != y.key.user
  }

  /** The cut in front of range `i` is between two user keys. */
  ghost predicate CutsBetween(parts: seq<seq<Entry>>, i: nat)
    requires i < |parts|
  {
    var a := Flatten(parts[..i]);
    a == [] || parts[i] == [] || a[|a| - 1].key.user != parts[i][0].key.user
  }

  lemma {:induction false} FlattenFront(parts: seq<seq<Entry>>, i: nat)
    requires Sorted(Flatten(parts)) && i < |parts|
    ensures Sorted(Flatten(parts[..i]) + parts[i])
    decreases |parts|
  {
    var n := |parts| - 1;
    if i < n {
      SortedParts(Flatten(parts[..n]), parts[n]);
      FlattenFront(parts[..n], i);
      assert parts[..n][..i] == parts[..i];
    }
  }

  lemma {:induction false} EndsDecide(a: seq<Entry>, b: seq<Entry>, outA: seq<Entry>, outB: seq<Entry>)
    requires Sorted(a + b) && a != [] && b != []
    requires (forall e :: e in outA ==> e in a) && forall e :: e in outB ==> e in b
    requires HasUser(outA, a[|a| - 1].key.user) && b[0] in outB
    ensures Apart(outA, outB) <==> a[|a| - 1].key.user != b[0].key.user
  {
    SortedParts(a, b);
    forall x, y | x in outA && y in outB && x.key.user == y.key.user
      ensures a[|a| - 1].key.user == b[0].key.user
    {
      MiddleKeys(a, b, x, y);
    }
  }

  lemma {:induction false} BeforeRange(parts: seq<seq<Entry>>, snapshots: seq<nat>)
    requires Sorted(Flatten(parts)) && |snapshots| == |parts|
    ensures var a, out := Flatten(parts), Merged(parts, snapshots);
            (forall e :: e in out ==> e in a) && (a != [] ==> HasUser(out, a[|a| - 1].key.user))
  {
    OutputsSorted(parts, snapshots);
    if Flatten(parts) != [] {
      LastUserSurvives(parts, snapshots);
    }
  }

  lemma {:induction false} InRange(b: seq<Entry>, snapshot: Option<nat>)
    ensures var out := Merge.Survivors(b, snapshot, |b|);
            (forall e :: e in out ==> e in b) && (b != [] ==> b[0] in out)
  {
    Merge.SurvivorsAreKept(b, snapshot, |b|);
  }

  /** The outputs of a range share no user key with those before it if and only if the entries on the two sides of
      the cut have different ones. */
  lemma {:induction false} ApartExactly(parts: seq<seq<Entry>>, snapshots: seq<nat>, i: nat)
    requires Sorted(Flatten(parts)) && |snapshots| == |parts| && i < |parts|
    ensures OutputsApart(parts, snapshots, i) <==> CutsBetween(parts, i)
  {
    var a, b := Flatten(parts[..i]), parts[i];
    FlattenFront(parts, i);
    SortedParts(a, b);
    BeforeRange(parts[..i], snapshots[..i]);
    InRange(b, Some(snapshots[i]));
    if a != [] && b != [] {
      EndsDecide(a, b, Merged(parts[..i], snapshots[..i]), Merge.Survivors(b, Some(snapshots[i]), |b|));
    }
  }

  lemma {:induction false} MiddleKeys(a: seq<Entry>, b: seq<Entry>, x: Entry, y: Entry)
    requires Sorted(a) && Sorted(b) && a != [] && b != [] && x in a && y in b && x.key.user == y.key.user
    requires forall p, q :: p in a && q in b ==> Less(p.key, q.key)
    ensures a[|a| - 1].key.user == b[0].key.user
  {
    var i :| 0 <= i < |a| && a[i] == x;
    var j :| 0 <= j < |b| && b[j] == y;
    if i < |a| - 1 {
      SortedFacts(a, i, |a| - 1);
    }
    if j > 0 {
      SortedFacts(b, 0, j);
    }
    assert Less(a[|a| - 1].key, b[0].key);
  }
}
