/**
 The loops that rewrite sorted runs: flushing a memtable, compacting on the compute node and
 compacting next to the data on the memory node.
 */
module Merge {
  import opened Keys

  /** A finished table: the bounds recorded in its metadata and the entries written to it. */
  datatype Table = Table(smallest: IKey, largest: IKey, entries: seq<Entry>)

  // ----- Which entries survive -----

  /** Entry `i` is not the first occurrence of its user key. */
  predicate Repeats(es: seq<Entry>, i: nat)
    requires i < |es|
  {
    && 0 < i && Parses(es[i].key) && Parses(es[i - 1].key)
    && es[i - 1].key.user == es[i].key.user
  }

  /** The drop rule shared by the loops.  `snapshot` is the oldest sequence a reader may hold; the
      loops that ignore snapshots use None. */
  predicate Kept(es: seq<Entry>, snapshot: Option<nat>, i: nat)
    requires i < |es|
  {
    !Repeats(es, i) || (snapshot.Some? && snapshot.value < es[i - 1].key.seqno)
  }

  /** The places of the first `n` entries that are kept. */
  function KeptIndices(es: seq<Entry>, snapshot: Option<nat>, n: nat): seq<nat>
    requires n <= |es|
  {
    if n == 0 then []
    else KeptIndices(es, snapshot, n - 1) + if Kept(es, snapshot, n - 1) then [n - 1] else []
  }

  function Survivors(es: seq<Entry>, snapshot: Option<nat>, n: nat): seq<Entry>
    requires n <= |es|
  {
    if n == 0 then []
    else Survivors(es, snapshot, n - 1) + if Kept(es, snapshot, n - 1) then [es[n - 1]] else []
  }

  lemma {:induction false} KeptFacts(es: seq<Entry>, snapshot: Option<nat>, n: nat)
    requires n <= |es|
    ensures var ks := KeptIndices(es, snapshot, n);
            && (forall a :: 0 <= a < |ks| ==> 0 <= ks[a] < n && Kept(es, snapshot, ks[a]))
            && (forall a, b :: 0 <= a < b < |ks| ==> ks[a] < ks[b])
            && (forall i :: 0 <= i < n && Kept(es, snapshot, i) ==> i in ks)
  {
    if n > 0 {
      KeptFacts(es, snapshot, n - 1);
    }
  }

  lemma {:induction false} SurvivorAt(es: seq<Entry>, snapshot: Option<nat>, n: nat)
    requires n <= |es|
    ensures |Survivors(es, snapshot, n)| == |KeptIndices(es, snapshot, n)|
    ensures forall a :: 0 <= a < |KeptIndices(es, snapshot, n)| ==>
              0 <= KeptIndices(es, snapshot, n)[a] < n
              && Survivors(es, snapshot, n)[a] == es[KeptIndices(es, snapshot, n)[a]]
  {
    if n > 0 {
      SurvivorAt(es, snapshot, n - 1);
    }
  }

  /** Survivors are exactly the kept entries. */
  lemma {:induction false} SurvivorsAreKept(es: seq<Entry>, snapshot: Option<nat>, n: nat)
    requires n <= |es|
    ensures forall e :: e in Survivors(es, snapshot, n) ==> e in es
    ensures forall i :: 0 <= i < n && Kept(es, snapshot, i) ==> es[i] in Survivors(es, snapshot, n)
  {
    SurvivorAt(es, snapshot, n);
    KeptFacts(es, snapshot, n);
  }

  /** Survivors stay in their old order. */
  lemma {:induction false} SurvivorsSorted(es: seq<Entry>, snapshot: Option<nat>, n: nat)
    requires n <= |es| && Sorted(es)
    ensures Sorted(Survivors(es, snapshot, n))
  {
    SurvivorAt(es, snapshot, n);
    KeptFacts(es, snapshot, n);
    var ks, out := KeptIndices(es, snapshot, n), Survivors(es, snapshot, n);
    forall a, b | 0 <= a < b < |out|
      ensures Less(out[a].key, out[b].key)
    {
      assert ks[a] < ks[b];
    }
  }

  /** A dropped entry has a newer neighbour of the same user key that every protected reader sees. */
  lemma {:induction false} HiddenUnlessKept(es: seq<Entry>, snapshot: Option<nat>, i: nat, s: nat)
    requires Sorted(es) && i < |es|
    requires match snapshot case Some(t) => t <= s case None => forall e :: e in es ==> e.key.seqno <= s
    ensures Kept(es, snapshot, i)
         || (i > 0 && VisibleAt(es[i - 1], es[i].key.user, s) && !Less(es[i].key, es[i - 1].key) && es[i - 1] != es[i])
  {
    if i > 0 {
      assert es[i - 1] in es;
      assert Less(es[i - 1].key, es[i].key);
    }
  }

  /** Dropping entries changes no read at or above the protected sequence; without snapshots, no
      read at or above every sequence in the input. */
  lemma {:induction false} MergePreservesReads(es: seq<Entry>, snapshot: Option<nat>, k: UserKey, s: nat,
      r: Option<Entry>)
    requires Sorted(es)
    requires match snapshot case Some(t) => t <= s case None => forall e :: e in es ==> e.key.seqno <= s
    ensures Reads(Entries(es), k, s, r) <==> Reads(Entries(Survivors(es, snapshot, |es|)), k, s, r)
  {
    var out := Survivors(es, snapshot, |es|);
    SurvivorsAreKept(es, snapshot, |es|);
    SurvivorsSorted(es, snapshot, |es|);
    var a := ReadOfSorted(es, k, s);
    var b := ReadOfSorted(out, k, s);
    assert Reads(Entries(out), k, s, a) by {
      if a.Some? {
        var i :| 0 <= i < |es| && es[i] == a.value;
        HiddenUnlessKept(es, snapshot, i, s);
        assert i > 0 ==> es[i - 1] in es;
      }
    }
  }

  // ----- Nothing else survives -----

  ghost predicate AllParse(es: seq<Entry>) {
    forall e :: e in es ==> Parses(e.key)
  }

  /** No two versions of a user key have the same sequence number. */
  ghost predicate OwnNumbers(es: seq<Entry>) {
    forall i, j :: 0 <= i < j < |es| && es[i].key.user == es[j].key.user ==> es[i].key.seqno != es[j].key.seqno
  }

  /** Some read at or above `t` is answered with `e`. */
  ghost predicate Needed(es: seq<Entry>, e: Entry, t: nat) {
    exists s :: t <= s && Reads(Entries(es), e.key.user, s, Some(e))
  }

  /** What comes before a kept entry of the same user key is too new for some read at or above `t`. */
  lemma {:induction false} TooNew(es: seq<Entry>, t: nat, i: nat, j: nat)
    requires Sorted(es) && AllParse(es) && OwnNumbers(es) && j < i < |es| && Kept(es, Some(t), i)
    requires es[j].key.user == es[i].key.user
    ensures es[j].key.seqno > t && es[j].key.seqno > es[i].key.seqno
  {
    assert es[i - 1] in es && es[i] in es;
    SortedFacts(es, i - 1, i);
    if j < i - 1 {
      SortedFacts(es, j, i - 1);
    }
  }

  lemma {:induction false} KeptIsNeeded(es: seq<Entry>, t: nat, i: nat)
    requires Sorted(es) && AllParse(es) && OwnNumbers(es) && i < |es| && Kept(es, Some(t), i)
    ensures Needed(es, es[i], t)
  {
    var e := es[i];
    var s := if t < e.key.seqno then e.key.seqno else t;
    forall j | 0 <= j < |es| && VisibleAt(es[j], e.key.user, s)
      ensures es[j] == e || Less(e.key, es[j].key)
    {
      if j < i {
        TooNew(es, t, i, j);
      }
    }
    assert e in es;
    assert Reads(Entries(es), e.key.user, s, Some(e));
  }

  /** Survivors are exactly the entries that answer some read at or above the protected sequence. */
  lemma {:induction false} SurvivorsAreNeeded(es: seq<Entry>, t: nat, e: Entry)
    requires Sorted(es) && AllParse(es) && OwnNumbers(es)
    ensures e in Survivors(es, Some(t), |es|) <==> e in es && Needed(es, e, t)
  {
    var out := Survivors(es, Some(t), |es|);
    if e in out {
      var i := KeptPlace(es, Some(t), e);
      KeptIsNeeded(es, t, i);
    }
    if Needed(es, e, t) {
      var s :| t <= s && Reads(Entries(es), e.key.user, s, Some(e));
      MergePreservesReads(es, Some(t), e.key.user, s, Some(e));
      assert e in Entries(out);
    }
  }

  lemma {:induction false} KeptPlace(es: seq<Entry>, snapshot: Option<nat>, e: Entry) returns (i: nat)
    requires e in Survivors(es, snapshot, |es|)
    ensures i < |es| && es[i] == e && Kept(es, snapshot, i)
  {
    SurvivorAt(es, snapshot, |es|);
    KeptFacts(es, snapshot, |es|);
    var a :| 0 <= a < |Survivors(es, snapshot, |es|)| && Survivors(es, snapshot, |es|)[a] == e;
    i := KeptIndices(es, snapshot, |es|)[a];
  }

  /** Without snapshots there is one survivor per user key: the one that comes first, that is, the
      one with the largest sequence number. */
  lemma {:induction false} NewestPerKey(es: seq<Entry>)
    requires Sorted(es) && AllParse(es)
    ensures forall i, j :: 0 <= i < j < |Survivors(es, None, |es|)| ==>
              Survivors(es, None, |es|)[i].key.user < Survivors(es, None, |es|)[j].key.user
    ensures forall e :: e in es ==>
              exists f :: f in Survivors(es, None, |es|) && f.key.user == e.key.user && f.key.seqno >= e.key.seqno
  {
    OnePerKey(es, |es|);
    SurvivorsAreKept(es, None, |es|);
    forall e | e in es
      ensures exists f :: f in Survivors(es, None, |es|) && f.key.user == e.key.user && f.key.seqno >= e.key.seqno
    {
      var i :| 0 <= i < |es| && es[i] == e;
      Covered(es, i);
    }
  }

  /** `k` has a version at or below `s` and one above it. */
  ghost predicate SplitAt(es: seq<Entry>, k: UserKey, s: nat) {
    exists e, f :: e in es && f in es && e.key.user == k == f.key.user && e.key.seqno <= s < f.key.seqno
  }

  /** Ignoring snapshots, a merge keeps the read of `k` at `s` exactly when no newer version of `k`
      hides the one the snapshot sees. */
  lemma {:induction false} SnapshotSurvives(es: seq<Entry>, k: UserKey, s: nat)
    requires Sorted(es) && AllParse(es)
    ensures (forall r :: Reads(Entries(es), k, s, r) <==> Reads(Entries(Survivors(es, None, |es|)), k, s, r))
       <==> !SplitAt(es, k, s)
  {
    if SplitAt(es, k, s) {
      SplitIsLost(es, k, s);
    } else {
      forall r
        ensures Reads(Entries(es), k, s, r) <==> Reads(Entries(Survivors(es, None, |es|)), k, s, r)
      {
        UnsplitIsKept(es, k, s, r);
      }
    }
  }

  lemma {:induction false} SplitIsLost(es: seq<Entry>, k: UserKey, s: nat)
    requires Sorted(es) && AllParse(es) && SplitAt(es, k, s)
    ensures Reads(Entries(Survivors(es, None, |es|)), k, s, None) && !Reads(Entries(es), k, s, None)
  {
    var e, f :| e in es && f in es && e.key.user == k == f.key.user && e.key.seqno <= s < f.key.seqno;
    assert e in Entries(es) && VisibleAt(e, k, s);
    OnlyNewer(es, f);
  }

  /** The survivor of a key is at least as new as any of its entries. */
  lemma {:induction false} OnlyNewer(es: seq<Entry>, f: Entry)
    requires Sorted(es) && AllParse(es) && f in es
    ensures forall g :: g in Survivors(es, None, |es|) && g.key.user == f.key.user ==> g.key.seqno >= f.key.seqno
  {
    var out := Survivors(es, None, |es|);
    OnePerKey(es, |es|);
    var n :| 0 <= n < |es| && es[n] == f;
    Covered(es, n);
    var g :| g in out && g.key.user == f.key.user && g.key.seqno >= f.key.seqno;
    var i :| 0 <= i < |out| && out[i] == g;
    assert forall j :: 0 <= j < |out| && out[j].key.user == f.key.user ==> j == i;
  }

  lemma {:induction false} UnsplitIsKept(es: seq<Entry>, k: UserKey, s: nat, r: Option<Entry>)
    requires Sorted(es) && AllParse(es) && !SplitAt(es, k, s)
    ensures Reads(Entries(es), k, s, r) <==> Reads(Entries(Survivors(es, None, |es|)), k, s, r)
  {
    SurvivorsAreKept(es, None, |es|);
    if exists e :: e in es && VisibleAt(e, k, s) {
      var t := TopSequence(es, s);
      MergePreservesReads(es, None, k, t, r);
      assert forall f :: f in es ==> (VisibleAt(f, k, s) <==> VisibleAt(f, k, t));
    }
  }

  lemma {:induction false} TopSequence(es: seq<Entry>, s: nat) returns (t: nat)
    ensures t >= s && forall e :: e in es ==> e.key.seqno <= t
  {
    t := s;
    if es != [] {
      t := TopSequence(es[1..], s);
      t := if es[0].key.seqno > t then es[0].key.seqno else t;
      assert es == [es[0]] + es[1..];
    }
  }

  lemma {:induction false} OnePerKey(es: seq<Entry>, n: nat)
    requires Sorted(es) && n <= |es| && AllParse(es)
    ensures forall i, j :: 0 <= i < j < |Survivors(es, None, n)| ==>
              Survivors(es, None, n)[i].key.user < Survivors(es, None, n)[j].key.user
    ensures n > 0 ==> |Survivors(es, None, n)| > 0
                      && Survivors(es, None, n)[|Survivors(es, None, n)| - 1].key.user == es[n - 1].key.user
  {
    if n > 0 {
      OnePerKey(es, n - 1);
      assert Parses(es[n - 1].key);
      if n > 1 {
        assert Parses(es[n - 2].key);
        SortedFacts(es, n - 2, n - 1);
      }
    }
  }

  lemma {:induction false} Covered(es: seq<Entry>, i: nat)
    requires Sorted(es) && i < |es|
    ensures exists f :: f in Survivors(es, None, |es|) && f.key.user == es[i].key.user && f.key.seqno >= es[i].key.seqno
  {
    SurvivorsAreKept(es, None, |es|);
    if !Kept(es, None, i) {
      SortedFacts(es, i - 1, i);
      Covered(es, i - 1);
    } else {
      assert es[i] in Survivors(es, None, |es|);
    }
  }

  // ----- Cutting the output into tables -----

  function Concat(ts: seq<Table>): seq<Entry> {
    if ts == [] then [] else Concat(ts[..|ts| - 1]) + ts[|ts| - 1].entries
  }

  /** The recorded bounds are those of the entries; the largest bound may be a later key of the
      last entry's user key. */
  ghost predicate TightBounds(t: Table) {
    && t.entries != [] && Sorted(t.entries)
    && t.smallest == t.entries[0].key
    && t.largest.user == t.entries[|t.entries| - 1].key.user
    && !Less(t.largest, t.entries[|t.entries| - 1].key)
  }

  /** Tables of one run, in order and without overlap. */
  ghost predicate RunOf(ts: seq<Table>) {
    && (forall i :: 0 <= i < |ts| ==> TightBounds(ts[i]))
    && forall i, j :: 0 <= i < j < |ts| ==> Less(ts[i].largest, ts[j].smallest)
  }

  /** The tables are a run of exactly the entries a merge of `es` keeps, and no bound is behind the last one
      iterated. */
  ghost predicate Writes(ts: seq<Table>, es: seq<Entry>, snapshot: Option<nat>) {
    && RunOf(ts) && Concat(ts) == Survivors(es, snapshot, |es|)
    && (ts != [] ==> es != [] && !Less(es[|es| - 1].key, ts[|ts| - 1].largest))
  }

  lemma {:induction false} EntriesWithinBounds(t: Table, i: nat)
    requires TightBounds(t) && i < |t.entries|
    ensures !Less(t.entries[i].key, t.smallest) && !Less(t.largest, t.entries[i].key)
    ensures t.smallest.user <= t.entries[i].key.user <= t.largest.user
  {
    var last := |t.entries| - 1;
    if 0 < i { assert Less(t.entries[0].key, t.entries[i].key); SortedFacts(t.entries, 0, i); }
    if i < last { assert Less(t.entries[i].key, t.entries[last].key); SortedFacts(t.entries, i, last); }
  }

  lemma {:induction false} ConcatLast(ts: seq<Table>, t: Table)
    ensures Concat(ts + [t]) == Concat(ts) + t.entries
  {
    assert (ts + [t])[..|ts|] == ts;
  }

  /** Entries of different tables of a run are entries at different places of its concatenation. */
  lemma {:induction false} ConcatIndex(ts: seq<Table>, i: nat, j: nat)
    requires i < |ts| && j < |ts[i].entries|
    ensures 0 <= Offset(ts, i) + j < |Concat(ts)| && Concat(ts)[Offset(ts, i) + j] == ts[i].entries[j]
  {
    if i < |ts| - 1 {
      ConcatIndex(ts[..|ts| - 1], i, j);
      OffsetPrefix(ts, i);
    } else {
      assert ts[..i] == ts[..|ts| - 1];
    }
  }

  function Offset(ts: seq<Table>, i: nat): nat
    requires i <= |ts|
  {
    |Concat(ts[..i])|
  }

  lemma {:induction false} OffsetPrefix(ts: seq<Table>, i: nat)
    requires i < |ts|
    ensures Offset(ts[..|ts| - 1], i) == Offset(ts, i)
  {
    assert ts[..|ts| - 1][..i] == ts[..i];
  }

  lemma {:induction false} OffsetGrows(ts: seq<Table>, i: nat, j: nat)
    requires i < j <= |ts|
    ensures Offset(ts, i) + |ts[i].entries| <= Offset(ts, j)
  {
    assert ts[..j][..j - 1] == ts[..j - 1];
    if i < j - 1 {
      OffsetGrows(ts, i, j - 1);
    }
  }

  // ----- Cutting a written run into tables -----

  /** A table closed at its last entry. */
  predicate Framed(t: Table) {
    t.entries != [] && t.smallest == t.entries[0].key && t.largest == t.entries[|t.entries| - 1].key
  }

  lemma {:induction false} PartSorted(a: seq<Entry>, p: seq<Entry>, from: nat)
    requires Sorted(a) && from + |p| <= |a| && forall i :: 0 <= i < |p| ==> p[i] == a[from + i]
    ensures Sorted(p)
  {
  }

  lemma {:induction false} FramedIsTight(ts: seq<Table>, i: nat)
    requires Sorted(Concat(ts)) && i < |ts| && Framed(ts[i])
    ensures TightBounds(ts[i])
  {
    forall j | 0 <= j < |ts[i].entries|
      ensures Offset(ts, i) + |ts[i].entries| <= |Concat(ts)| && ts[i].entries[j] == Concat(ts)[Offset(ts, i) + j]
    {
      ConcatIndex(ts, i, j);
      ConcatIndex(ts, i, |ts[i].entries| - 1);
    }
    ConcatIndex(ts, i, |ts[i].entries| - 1);
    PartSorted(Concat(ts), ts[i].entries, Offset(ts, i));
  }

  lemma {:induction false} FramedInOrder(ts: seq<Table>, i: nat, j: nat)
    requires Sorted(Concat(ts)) && i < j < |ts| && Framed(ts[i]) && Framed(ts[j])
    ensures Less(ts[i].largest, ts[j].smallest)
  {
    ConcatIndex(ts, i, |ts[i].entries| - 1);
    ConcatIndex(ts, j, 0);
    OffsetGrows(ts, i, j);
  }

  /** Cutting a sorted run anywhere gives tables of one run. */
  lemma {:induction false} FramedRun(ts: seq<Table>)
    requires Sorted(Concat(ts)) && forall i :: 0 <= i < |ts| ==> Framed(ts[i])
    ensures RunOf(ts)
  {
    forall i | 0 <= i < |ts|
      ensures TightBounds(ts[i])
    {
      FramedIsTight(ts, i);
    }
    forall i, j | 0 <= i < j < |ts|
      ensures Less(ts[i].largest, ts[j].smallest)
    {
      FramedInOrder(ts, i, j);
    }
  }

  /** The last table of a run may record a later key of its last user key as its largest bound. */
  lemma {:induction false} WidenLast(ts: seq<Table>, t: Table, last: IKey)
    requires RunOf(ts + [t]) && last.user == t.largest.user && Framed(t) && !Less(last, t.largest)
    ensures RunOf(ts + [t.(largest := last)])
  {
    var us, vs := ts + [t], ts + [t.(largest := last)];
    assert TightBounds(us[|ts|]);
    forall i | 0 <= i < |vs|
      ensures TightBounds(vs[i])
    {
      assert i < |ts| ==> vs[i] == us[i] && TightBounds(us[i]);
    }
    forall i, j | 0 <= i < j < |vs|
      ensures Less(vs[i].largest, vs[j].smallest)
    {
      assert vs[i] == us[i] && vs[j].smallest == us[j].smallest;
    }
  }

  // ----- The loops -----

  const MAX_SEQUENCE: nat := 0xFF_FFFF_FFFF_FFFF

  /** No shorter table would have been big enough. */
  ghost predicate NoneEarlier(es: seq<Entry>, size: seq<Entry> -> nat, cap: nat) {
    forall j :: 0 < j < |es| ==> size(es[..j]) < cap
  }

  /** Each table was closed with the first entry that made it big enough. */
  ghost predicate Filled(ts: seq<Table>, size: seq<Entry> -> nat, cap: nat) {
    forall i :: 0 <= i < |ts| ==> size(ts[i].entries) >= cap && NoneEarlier(ts[i].entries, size, cap)
  }

  ghost predicate StillOpen(open: seq<Entry>, size: seq<Entry> -> nat, cap: nat) {
    NoneEarlier(open, size, cap) && (open != [] ==> size(open) < cap)
  }

  /** The same of all tables but the last, which may be smaller. */
  ghost predicate CutBySize(ts: seq<Table>, size: seq<Entry> -> nat, cap: nat) {
    && (forall i :: 0 <= i < |ts| - 1 ==> size(ts[i].entries) >= cap)
    && forall i :: 0 <= i < |ts| ==> NoneEarlier(ts[i].entries, size, cap)
  }

  lemma {:induction false} OneEntryMore(open: seq<Entry>, e: Entry, size: seq<Entry> -> nat, cap: nat)
    requires StillOpen(open, size, cap)
    ensures NoneEarlier(open + [e], size, cap)
  {
    forall j | 0 < j < |open + [e]|
      ensures size((open + [e])[..j]) < cap
    {
      assert (open + [e])[..j] == if j == |open| then open else open[..j];
    }
  }

  /** The tail of every loop body: write entry `e` unless it is dropped, and close the open table
      once it is big enough.  `size` is the builder's FileSize(). */
  method WriteEntry(e: Entry, drop: bool, size: seq<Entry> -> nat, cap: nat, outs0: seq<Table>, open0: seq<Entry>)
      returns (outs: seq<Table>, open: seq<Entry>)
    requires forall i :: 0 <= i < |outs0| ==> Framed(outs0[i])
    requires Filled(outs0, size, cap) && StillOpen(open0, size, cap)
    ensures Filled(outs, size, cap) && StillOpen(open, size, cap)
    ensures forall i :: 0 <= i < |outs| ==> Framed(outs[i])
    ensures Concat(outs) + open == Concat(outs0) + open0 + if drop then [] else [e]
    ensures open == [] || open == if drop then open0 else open0 + [e]
  {
    outs, open := outs0, open0;
    if !drop {
      open := open + [e];
      assert Concat(outs) + open == Concat(outs0) + open0 + [e];
      OneEntryMore(open0, e, size, cap);
      if size(open) >= cap {
        var t := Table(open[0].key, e.key, open);
        ConcatLast(outs, t);
        outs, open := outs + [t], [];
      }
    }
  }

  lemma {:induction false} LastMayBeSmall(outs: seq<Table>, t: Table, size: seq<Entry> -> nat, cap: nat)
    requires Filled(outs, size, cap) && StillOpen(t.entries, size, cap)
    ensures CutBySize(outs, size, cap) && CutBySize(outs + [t], size, cap)
  {
  }

  /** After the loop: close the open table. */
  method FinishLast(es: seq<Entry>, ghost snapshot: Option<nat>, outs0: seq<Table>, open: seq<Entry>,
      ghost size: seq<Entry> -> nat, ghost cap: nat) returns (outs: seq<Table>)
    requires Filled(outs0, size, cap) && StillOpen(open, size, cap)
    requires Sorted(es) && forall i :: 0 <= i < |outs0| ==> Framed(outs0[i])
    requires Concat(outs0) + open == Survivors(es, snapshot, |es|)
    ensures Writes(outs, es, snapshot) && CutBySize(outs, size, cap)
  {
    outs := CloseOpen(es, snapshot, outs0, open);
    if open != [] {
      LastMayBeSmall(outs0, Table(open[0].key, es[|es| - 1].key, open), size, cap);
    }
  }

  /** The largest bound of the last table is the last key iterated. */
  method CloseOpen(es: seq<Entry>, ghost snapshot: Option<nat>, outs0: seq<Table>, open: seq<Entry>)
      returns (outs: seq<Table>)
    requires Sorted(es) && forall i :: 0 <= i < |outs0| ==> Framed(outs0[i])
    requires Concat(outs0) + open == Survivors(es, snapshot, |es|)
    ensures Writes(outs, es, snapshot)
    ensures if open == [] then outs == outs0
            else es != [] && outs == outs0 + [Table(open[0].key, es[|es| - 1].key, open)]
  {
    if open == [] {
      outs := outs0;
      NothingOpen(es, snapshot, outs);
    } else {
      OneOpen(es, snapshot, outs0, open);
      outs := outs0 + [Table(open[0].key, es[|es| - 1].key, open)];
    }
  }

  lemma {:induction false} NothingOpen(es: seq<Entry>, snapshot: Option<nat>, outs: seq<Table>)
    requires Sorted(es) && forall i :: 0 <= i < |outs| ==> Framed(outs[i])
    requires Concat(outs) + [] == Survivors(es, snapshot, |es|)
    ensures Writes(outs, es, snapshot)
  {
    SurvivorsSorted(es, snapshot, |es|);
    assert Concat(outs) + [] == Concat(outs);
    FramedRun(outs);
    if outs != [] {
      LastKept(es, snapshot, |es|);
      assert Concat(outs)[|Concat(outs)| - 1].key == outs[|outs| - 1].largest;
    }
  }

  lemma {:induction false} OneOpen(es: seq<Entry>, snapshot: Option<nat>, outs: seq<Table>, open: seq<Entry>)
    requires Sorted(es) && open != [] && forall i :: 0 <= i < |outs| ==> Framed(outs[i])
    requires Concat(outs) + open == Survivors(es, snapshot, |es|)
    ensures es != [] && Writes(outs + [Table(open[0].key, es[|es| - 1].key, open)], es, snapshot)
  {
    SurvivorsSorted(es, snapshot, |es|);
    LastKept(es, snapshot, |es|);
    var w := Survivors(es, snapshot, |es|);
    assert w[|w| - 1] == open[|open| - 1];
    ClosedAt(outs, open, es[|es| - 1].key);
  }

  lemma {:induction false} OneTableMore(outs: seq<Table>, t: Table)
    requires Sorted(Concat(outs) + t.entries) && Framed(t) && forall i :: 0 <= i < |outs| ==> Framed(outs[i])
    ensures RunOf(outs + [t])
  {
    ConcatLast(outs, t);
    FramedRun(outs + [t]);
  }

  lemma {:induction false} ClosedAt(outs: seq<Table>, open: seq<Entry>, last: IKey)
    requires open != [] && Sorted(Concat(outs) + open) && forall i :: 0 <= i < |outs| ==> Framed(outs[i])
    requires last.user == open[|open| - 1].key.user && !Less(last, open[|open| - 1].key)
    ensures var ts := outs + [Table(open[0].key, last, open)]; RunOf(ts) && Concat(ts) == Concat(outs) + open
  {
    var t := Table(open[0].key, open[|open| - 1].key, open);
    OneTableMore(outs, t);
    WidenLast(outs, t, last);
    ConcatLast(outs, Table(open[0].key, last, open));
  }

  /** The last survivor has the user key of the last entry iterated, and does not come after it. */
  lemma {:induction false} LastKept(es: seq<Entry>, snapshot: Option<nat>, n: nat)
    requires Sorted(es) && n <= |es|
    ensures n > 0 ==> var w := Survivors(es, snapshot, n);
              w != [] && w[|w| - 1].key.user == es[n - 1].key.user && !Less(es[n - 1].key, w[|w| - 1].key)
  {
    if n > 1 {
      LastKept(es, snapshot, n - 1);
      assert Less(es[n - 2].key, es[n - 1].key);
    }
  }

  /** Compaction on the compute node. */
  method CompactOnCompute(es: seq<Entry>, smallestSnapshot: nat, size: seq<Entry> -> nat, cap: nat)
      returns (outs: seq<Table>)
    requires Sorted(es) && smallestSnapshot < MAX_SEQUENCE
    ensures Writes(outs, es, Some(smallestSnapshot)) && CutBySize(outs, size, cap)
    ensures AllParse(es) && OwnNumbers(es) ==>
              forall e :: e in Concat(outs) <==> e in es && Needed(es, e, smallestSnapshot)
  {
    outs := [];
    var open: seq<Entry> := [];
    var current: Option<UserKey> := None;
    var lastSequence := MAX_SEQUENCE;
    for n := 0 to |es|
      invariant forall i :: 0 <= i < |outs| ==> Framed(outs[i])
      invariant Filled(outs, size, cap) && StillOpen(open, size, cap)
      invariant Concat(outs) + open == Survivors(es, Some(smallestSnapshot), n)
      invariant current == if n == 0 || !Parses(es[n - 1].key) then None else Some(es[n - 1].key.user)
      invariant lastSequence == if current == None then MAX_SEQUENCE else es[n - 1].key.seqno
    {
      var key := es[n].key;
      var drop := false;
      if !Parses(key) {
        current := None;
        lastSequence := MAX_SEQUENCE;
      } else {
        if current == None || current.value != key.user {
          current := Some(key.user);
          lastSequence := MAX_SEQUENCE;
        }
        if lastSequence <= smallestSnapshot {
          drop := true;
        }
        lastSequence := key.seqno;
      }
      assert drop == !Kept(es, Some(smallestSnapshot), n);
      outs, open := WriteEntry(es[n], drop, size, cap, outs, open);
    }
    outs := FinishLast(es, Some(smallestSnapshot), outs, open, size, cap);
    forall e | AllParse(es) && OwnNumbers(es)
      ensures e in Concat(outs) <==> e in es && Needed(es, e, smallestSnapshot)
    {
      SurvivorsAreNeeded(es, smallestSnapshot, e);
    }
  }

  /** Tables of a run whose user-key ranges do not even touch. */
  ghost predicate DisjointRun(ts: seq<Table>) {
    && RunOf(ts)
    && forall i, j :: 0 <= i < j < |ts| ==> ts[i].largest.user < ts[j].smallest.user
  }

  /** Compaction next to the data, on the memory node: snapshots are not consulted. */
  method CompactNearData(es: seq<Entry>, size: seq<Entry> -> nat, cap: nat) returns (outs: seq<Table>)
    requires Sorted(es)
    ensures Writes(outs, es, None) && CutBySize(outs, size, cap)
    ensures AllParse(es) ==> DisjointRun(outs)
  {
    outs := [];
    var open: seq<Entry> := [];
    var current: Option<UserKey> := None;
    for n := 0 to |es|
      invariant forall i :: 0 <= i < |outs| ==> Framed(outs[i])
      invariant Filled(outs, size, cap) && StillOpen(open, size, cap)
      invariant Concat(outs) + open == Survivors(es, None, n)
      invariant current == if n == 0 || !Parses(es[n - 1].key) then None else Some(es[n - 1].key.user)
    {
      var key := es[n].key;
      var drop := false;
      if !Parses(key) {
        current := None;
      } else if current == None {
        current := Some(key.user);
      } else if key.user != current.value {
        current := Some(key.user);
      } else {
        drop := true;
      }
      assert drop == !Kept(es, None, n);
      outs, open := WriteEntry(es[n], drop, size, cap, outs, open);
    }
    outs := FinishLast(es, None, outs, open, size, cap);
    RunIsDisjoint(es, outs);
  }

  lemma {:induction false} RunIsDisjoint(es: seq<Entry>, ts: seq<Table>)
    requires Sorted(es) && RunOf(ts) && Concat(ts) == Survivors(es, None, |es|)
    ensures AllParse(es) ==> DisjointRun(ts)
  {
    if !AllParse(es) {
      return;
    }
    OnePerKey(es, |es|);
    forall i, j | 0 <= i < j < |ts|
      ensures ts[i].largest.user < ts[j].smallest.user
    {
      assert TightBounds(ts[i]) && TightBounds(ts[j]);
      ConcatIndex(ts, i, |ts[i].entries| - 1);
      ConcatIndex(ts, j, 0);
      OffsetGrows(ts, i, j);
    }
  }

  /** Flushing a memtable.  An unparsable key aborts the job; an empty input writes no table. */
  method BuildTable(es: seq<Entry>) returns (ok: bool, t: Option<Table>)
    requires Sorted(es)
    ensures ok <==> AllParse(es)
    ensures t.None? <==> es == [] || !ok
    ensures t.Some? ==> TightBounds(t.value) && t.value.entries == Survivors(es, None, |es|)
    ensures t.Some? ==> t.value.smallest == es[0].key && t.value.largest == es[|es| - 1].key
  {
    ok, t := true, None;
    if |es| == 0 {
      return;
    }
    var written: seq<Entry> := [];
    var current: Option<UserKey> := None;
    for n := 0 to |es|
      invariant written == Survivors(es, None, n)
      invariant forall i :: 0 <= i < n ==> Parses(es[i].key)
      invariant current == if n == 0 then None else Some(es[n - 1].key.user)
    {
      var key := es[n].key;
      var drop := false;
      if !Parses(key) {
        ok := false;
        assert es[n] in es;
        return;
      }
      if current == None || key.user != current.value {
        current := Some(key.user);
      } else {
        drop := true;
      }
      if !drop {
        written := written + [es[n]];
      }
    }
    t := Some(Table(es[0].key, es[|es| - 1].key, written));
    FlushBounds(es);
  }

  lemma {:induction false} FlushBounds(es: seq<Entry>)
    requires Sorted(es) && es != [] && AllParse(es)
    ensures TightBounds(Table(es[0].key, es[|es| - 1].key, Survivors(es, None, |es|)))
  {
    SurvivorsSorted(es, None, |es|);
    LastKept(es, None, |es|);
    FirstSurvives(es, None, |es|);
  }

  lemma {:induction false} FirstSurvives(es: seq<Entry>, snapshot: Option<nat>, n: nat)
    requires 0 < n <= |es|
    ensures var w := Survivors(es, snapshot, n); w != [] && w[0] == es[0]
  {
    if n > 1 {
      FirstSurvives(es, snapshot, n - 1);
    } else {
      assert Survivors(es, snapshot, 0) == [];
    }
  }
}
