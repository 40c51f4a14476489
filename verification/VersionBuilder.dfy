/**
 VersionSet::Builder: applies version edits to a base version and saves the result, one sorted
 vector of files per level, together with the list of files that are under compaction.
 */
module VersionBuilder {
  import opened Keys
  import opened Versions

  /** File number and creator node. */
  type Id = (nat, nat)

  function IdOf(f: File): Id {
    (f.number, f.creator)
  }

  datatype Edit = Edit(deleted: seq<(nat, Id)>, added: seq<(nat, File)>)

  /** What the first `n` items of an edit list name at `level`. */
  function At<T>(items: seq<(nat, T)>, level: nat, n: nat): set<T>
    requires n <= |items|
  {
    if n == 0 then {}
    else At(items, level, n - 1) + if items[n - 1].0 == level then {items[n - 1].1} else {}
  }

  lemma {:induction false} AtIsListed<T>(items: seq<(nat, T)>, level: nat, n: nat)
    requires n <= |items|
    ensures forall i :: 0 <= i < n && items[i].0 == level ==> items[i].1 in At(items, level, n)
    ensures forall x :: x in At(items, level, n) ==> exists i :: 0 <= i < n && items[i] == (level, x)
  {
    if n > 0 {
      AtIsListed(items, level, n - 1);
    }
  }

  function DeletedAt(e: Edit, level: nat): set<Id> {
    At(e.deleted, level, |e.deleted|)
  }

  function AddedAt(e: Edit, level: nat): set<File> {
    At(e.added, level, |e.added|)
  }

  ghost predicate EditOk(e: Edit) {
    && (forall d :: d in e.deleted ==> d.0 < NUM_LEVELS)
    && (forall a :: a in e.added ==> a.0 < NUM_LEVELS)
  }

  function Elements(v: seq<File>): set<File> {
    set f | f in v
  }

  /** What a level holds after an edit: what it held, plus the added files, minus the deleted. */
  function Edited(files: set<File>, added: set<File>, deleted: set<Id>): set<File> {
    set f | f in files + added && IdOf(f) !in deleted
  }

  /** The deleted ids of a level after one more edit: an id that the edit adds counts as deleted no more. */
  function DeletedAfter(deleted: set<Id>, e: Edit, level: nat): set<Id> {
    (deleted + DeletedAt(e, level)) - IdsOf(AddedAt(e, level))
  }

  function IdsOf(fs: set<File>): set<Id> {
    set f | f in fs :: IdOf(f)
  }

  // ----- The order of a level: by smallest key, then by number -----

  predicate FileLess(f: File, g: File) {
    var c := Compare(f.smallest, g.smallest);
    c < 0 || (c == 0 && f.number < g.number)
  }

  ghost predicate Ascending(v: seq<File>) {
    forall i, j :: 0 <= i < j < |v| ==> FileLess(v[i], v[j])
  }

  /** The order tells the files apart. */
  ghost predicate Distinguished(fs: set<File>) {
    forall f, g :: f in fs && g in fs && f != g ==> FileLess(f, g) || FileLess(g, f)
  }

  lemma {:induction false} FileLessIsOrder(f: File, g: File, h: File)
    ensures !FileLess(f, f)
    ensures FileLess(f, g) && FileLess(g, h) ==> FileLess(f, h)
    ensures FileLess(f, g) ==> !FileLess(g, f)
  {
  }

  /** A level is determined by its files: two ascending vectors of the same files are equal. */
  lemma {:induction false} AscendingIsUnique(v: seq<File>, w: seq<File>)
    requires Ascending(v) && Ascending(w) && Elements(v) == Elements(w)
    ensures v == w
    decreases |v|
  {
    assert forall i :: 0 <= i < |w| ==> w[i] in Elements(w);
    assert forall i :: 0 <= i < |v| ==> v[i] in Elements(v);
    if v != [] {
      assert v[0] in Elements(w);
      var i :| 0 <= i < |w| && w[i] == v[0];
      var j :| 0 <= j < |v| && v[j] == w[0];
      FileLessIsOrder(v[0], w[0], v[0]);
      assert v[0] == w[0];
      forall f
        ensures f in Elements(v[1..]) <==> f in Elements(w[1..])
      {
        TailElements(v, f);
        TailElements(w, f);
      }
      AscendingIsUnique(v[1..], w[1..]);
    }
  }

  lemma {:induction false} TailElements(v: seq<File>, f: File)
    requires v != [] && Ascending(v)
    ensures f in Elements(v[1..]) <==> f in Elements(v) && f != v[0]
  {
    assert v == [v[0]] + v[1..];
    FileLessIsOrder(v[0], v[0], v[0]);
    if f in v[1..] {
      var i :| 0 <= i < |v[1..]| && v[1..][i] == f;
      assert FileLess(v[0], v[i + 1]);
    }
  }

  // ----- Insertion into the ordered set of added files -----

  method InsertAdded(v: seq<File>, f: File) returns (r: seq<File>)
    requires Ascending(v) && Distinguished(Elements(v) + {f})
    ensures Ascending(r) && Elements(r) == Elements(v) + {f}
  {
    var p := 0;
    while p < |v| && FileLess(v[p], f)
      invariant 0 <= p <= |v|
      invariant forall i :: 0 <= i < p ==> FileLess(v[i], f)
    {
      p := p + 1;
    }
    if p < |v| && !FileLess(f, v[p]) {
      r := v;                           // an equivalent element is already there
      assert v[p] in Elements(v);
      assert v[p] == f;
      assert Elements(v) == Elements(v) + {f};
    } else {
      r := v[..p] + [f] + v[p..];
      InsertKeepsOrder(v, p, f);
      assert v == v[..p] + v[p..];
    }
  }

  lemma {:induction false} InsertKeepsOrder(v: seq<File>, p: nat, f: File)
    requires Ascending(v) && p <= |v|
    requires forall i :: 0 <= i < p ==> FileLess(v[i], f)
    requires p < |v| ==> FileLess(f, v[p])
    ensures Ascending(v[..p] + [f] + v[p..])
  {
    forall i | p <= i < |v|
      ensures FileLess(f, v[i])
    {
      if p < i {
        FileLessIsOrder(f, v[p], v[i]);
      }
    }
  }

  // ----- Merging one level -----

  function Keep(f: File, deleted: set<Id>): seq<File> {
    if IdOf(f) in deleted then [] else [f]
  }

  /** The merge of two ascending vectors, less the deleted files. */
  function MergeFrom(base: seq<File>, b: nat, added: seq<File>, a: nat, deleted: set<Id>): seq<File>
    requires b <= |base| && a <= |added|
    decreases |base| - b + |added| - a
  {
    if b < |base| && (a == |added| || !FileLess(added[a], base[b])) then
      Keep(base[b], deleted) + MergeFrom(base, b + 1, added, a, deleted)
    else if a < |added| then
      Keep(added[a], deleted) + MergeFrom(base, b, added, a + 1, deleted)
    else
      []
  }

  lemma {:induction false} KeptFirst(g: File, deleted: set<Id>, m: seq<File>)
    ensures (IdOf(g) in deleted || BelowFrom(g, m, 0)) && Ascending(m) ==> Ascending(Keep(g, deleted) + m)
  {
  }

  lemma {:induction false} MergeElements(base: seq<File>, b: nat, added: seq<File>, a: nat, deleted: set<Id>)
    requires b <= |base| && a <= |added|
    ensures Elements(MergeFrom(base, b, added, a, deleted)) ==
              Edited(Elements(base[b..]), Elements(added[a..]), deleted)
  {
    var m := MergeFrom(base, b, added, a, deleted);
    forall f
      ensures f in Elements(m) <==> f in Edited(Elements(base[b..]), Elements(added[a..]), deleted)
    {
      MergeCounts(base, b, added, a, deleted, f);
      TimesIs(base, b, f);
      TimesIs(added, a, f);
      assert f in m <==> multiset(m)[f] > 0;
      assert f in base[b..] <==> multiset(base[b..])[f] > 0;
      assert f in added[a..] <==> multiset(added[a..])[f] > 0;
    }
  }

  /** Everything in `v` from `i` on comes after `f`. */
  ghost predicate BelowFrom(f: File, v: seq<File>, i: nat) {
    forall j :: i <= j < |v| ==> FileLess(f, v[j])
  }

  lemma {:induction false} BelowHead(f: File, v: seq<File>, i: nat)
    requires Ascending(v) && i < |v| && FileLess(f, v[i])
    ensures BelowFrom(f, v, i)
  {
    forall j | i <= j < |v|
      ensures FileLess(f, v[j])
    {
      if i < j {
        FileLessIsOrder(f, v[i], v[j]);
      }
    }
  }

  lemma {:induction false} BelowMerge(f: File, base: seq<File>, b: nat, added: seq<File>, a: nat, deleted: set<Id>)
    requires b <= |base| && a <= |added|
    requires BelowFrom(f, base, b) && BelowFrom(f, added, a)
    ensures BelowFrom(f, MergeFrom(base, b, added, a, deleted), 0)
  {
    MergeElements(base, b, added, a, deleted);
    var m := MergeFrom(base, b, added, a, deleted);
    forall j | 0 <= j < |m|
      ensures FileLess(f, m[j])
    {
      assert m[j] in Elements(m);
    }
  }

  /** The order tells the files of `v` that stay from those of `fs`. */
  ghost predicate Fresh(v: seq<File>, deleted: set<Id>, fs: set<File>) {
    forall f, g :: f in v && g in fs ==> IdOf(f) in deleted || FileLess(f, g) || FileLess(g, f)
  }

  lemma {:induction false} MergeAscends(base: seq<File>, b: nat, added: seq<File>, a: nat, deleted: set<Id>)
    requires b <= |base| && a <= |added| && Ascending(base) && Ascending(added)
    requires Fresh(base, deleted, Elements(added))
    ensures Ascending(MergeFrom(base, b, added, a, deleted))
    decreases |base| - b + |added| - a
  {
    if b < |base| && (a == |added| || !FileLess(added[a], base[b])) {
      MergeAscends(base, b + 1, added, a, deleted);
      if IdOf(base[b]) !in deleted {
        if a < |added| {
          assert base[b] in base && added[a] in Elements(added);
          BelowHead(base[b], added, a);
        }
        BelowMerge(base[b], base, b + 1, added, a, deleted);
      }
      KeptFirst(base[b], deleted, MergeFrom(base, b + 1, added, a, deleted));
    } else if a < |added| {
      MergeAscends(base, b, added, a + 1, deleted);
      if b < |base| {
        BelowHead(added[a], base, b);
      }
      BelowMerge(added[a], base, b, added, a + 1, deleted);
      KeptFirst(added[a], deleted, MergeFrom(base, b, added, a + 1, deleted));
    }
  }

  /** SaveTo for one level: walk the added files in order, copying the base files that come before
      each, and leave out everything deleted. */
  method SaveLevel(base: seq<File>, added: seq<File>, deleted: set<Id>) returns (out: seq<File>)
    requires Ascending(base) && Ascending(added)
    ensures Vector(base, Elements(added), deleted, out)
  {
    out := [];
    var b := 0;
    ghost var all := MergeFrom(base, 0, added, 0, deleted);
    for a := 0 to |added|
      invariant 0 <= b <= |base|
      invariant out + MergeFrom(base, b, added, a, deleted) == all
    {
      while b < |base| && !FileLess(added[a], base[b])
        invariant 0 <= b <= |base|
        invariant out + MergeFrom(base, b, added, a, deleted) == all
      {
        Regroup(out, Keep(base[b], deleted), MergeFrom(base, b + 1, added, a, deleted));
        out := MaybeAddFile(out, base[b], deleted);
        b := b + 1;
      }
      Regroup(out, Keep(added[a], deleted), MergeFrom(base, b, added, a + 1, deleted));
      out := MaybeAddFile(out, added[a], deleted);
    }
    while b < |base|
      invariant 0 <= b <= |base|
      invariant out + MergeFrom(base, b, added, |added|, deleted) == all
    {
      Regroup(out, Keep(base[b], deleted), MergeFrom(base, b + 1, added, |added|, deleted));
      out := MaybeAddFile(out, base[b], deleted);
      b := b + 1;
    }
    assert out == all;
    MergeIsVector(base, added, deleted);
  }

  /** How often `f` is in `v` from place `i` on. */
  function Times(v: seq<File>, i: nat, f: File): nat
    requires i <= |v|
    decreases |v| - i
  {
    if i == |v| then 0 else (if v[i] == f then 1 else 0) + Times(v, i + 1, f)
  }

  lemma {:induction false} TimesIs(v: seq<File>, i: nat, f: File)
    requires i <= |v|
    ensures Times(v, i, f) == multiset(v[i..])[f]
    decreases |v| - i
  {
    if i < |v| {
      TimesIs(v, i + 1, f);
      assert v[i..] == [v[i]] + v[i + 1..];
    }
  }

  lemma {:induction false} KeepCounts(g: File, deleted: set<Id>, m: seq<File>, f: File)
    ensures multiset(Keep(g, deleted) + m)[f] == multiset(m)[f] + if g == f && IdOf(f) !in deleted then 1 else 0
  {
  }

  /** How often the merge has a file: once for the base and once for the additions, unless it is deleted. */
  lemma {:induction false} MergeCounts(base: seq<File>, b: nat, added: seq<File>, a: nat, deleted: set<Id>, f: File)
    requires b <= |base| && a <= |added|
    ensures multiset(MergeFrom(base, b, added, a, deleted))[f] ==
              if IdOf(f) in deleted then 0 else Times(base, b, f) + Times(added, a, f)
    decreases |base| - b + |added| - a
  {
    if b < |base| && (a == |added| || !FileLess(added[a], base[b])) {
      MergeCounts(base, b + 1, added, a, deleted, f);
      KeepCounts(base[b], deleted, MergeFrom(base, b + 1, added, a, deleted), f);
    } else if a < |added| {
      MergeCounts(base, b, added, a + 1, deleted, f);
      KeepCounts(added[a], deleted, MergeFrom(base, b, added, a + 1, deleted), f);
    }
  }

  lemma {:induction false} AscendingCounts(v: seq<File>, f: File)
    requires Ascending(v)
    ensures multiset(v)[f] == if f in v then 1 else 0
  {
    if v != [] {
      var n := |v| - 1;
      assert v == v[..n] + [v[n]];
      AscendingCounts(v[..n], f);
      LastIsNew(v);
    }
  }

  lemma {:induction false} LastIsNew(v: seq<File>)
    requires Ascending(v) && v != []
    ensures v[|v| - 1] !in v[..|v| - 1]
  {
    var n := |v| - 1;
    FileLessIsOrder(v[n], v[n], v[n]);
    assert forall i :: 0 <= i < n ==> FileLess(v[i], v[n]);
  }

  lemma {:induction false} MergeIsVector(base: seq<File>, added: seq<File>, deleted: set<Id>)
    requires Ascending(base) && Ascending(added)
    ensures Vector(base, Elements(added), deleted, MergeFrom(base, 0, added, 0, deleted))
  {
    assert base[0..] == base && added[0..] == added;
    forall f
      ensures multiset(MergeFrom(base, 0, added, 0, deleted))[f] == Copies(base, Elements(added), deleted, f)
    {
      MergeCounts(base, 0, added, 0, deleted, f);
      TimesIs(base, 0, f);
      TimesIs(added, 0, f);
      AscendingCounts(base, f);
      AscendingCounts(added, f);
    }
    if Fresh(base, deleted, Elements(added)) {
      MergeIsEdit(base, added, deleted);
    }
  }

  lemma {:induction false} MergeIsEdit(base: seq<File>, added: seq<File>, deleted: set<Id>)
    requires Ascending(base) && Ascending(added) && Fresh(base, deleted, Elements(added))
    ensures Ascending(MergeFrom(base, 0, added, 0, deleted))
    ensures Elements(MergeFrom(base, 0, added, 0, deleted)) == Edited(Elements(base), Elements(added), deleted)
  {
    MergeAscends(base, 0, added, 0, deleted);
    MergeElements(base, 0, added, 0, deleted);
    assert base[0..] == base && added[0..] == added;
  }

  lemma {:induction false} Regroup(a: seq<File>, b: seq<File>, c: seq<File>)
    ensures a + (b + c) == (a + b) + c
  {
  }

  method MaybeAddFile(out: seq<File>, f: File, deleted: set<Id>) returns (r: seq<File>)
    ensures r == out + Keep(f, deleted)
    ensures forall g :: g in r <==> g in out || (g == f && IdOf(f) !in deleted)
    ensures Ascending(out) && (forall g :: g in out ==> FileLess(g, f)) ==> Ascending(r)
  {
    r := if IdOf(f) in deleted then out else out + [f];
  }

  // ----- The saved version, as a relation -----

  /** `out` holds what the edits leave of a level, each file once and in order. */
  ghost predicate Saved(base: seq<File>, added: set<File>, deleted: set<Id>, out: seq<File>) {
    Ascending(out) && Elements(out) == Edited(Elements(base), added, deleted)
  }

  /** How often SaveTo writes a file. */
  function Copies(base: seq<File>, added: set<File>, deleted: set<Id>, f: File): nat {
    if IdOf(f) in deleted then 0 else (if f in base then 1 else 0) + if f in added then 1 else 0
  }

  /** The vector SaveTo leaves for a level, whatever the edits were: a file of the base that is added again
      and not deleted is there twice. */
  ghost predicate Vector(base: seq<File>, added: set<File>, deleted: set<Id>, out: seq<File>) {
    && (forall f :: multiset(out)[f] == Copies(base, added, deleted, f))
    && (Fresh(base, deleted, added) ==> Saved(base, added, deleted, out))
  }

  /** No file of the base is added again and kept. */
  ghost predicate NoneTwice(base: seq<File>, added: set<File>, deleted: set<Id>) {
    forall f :: f in base && f in added ==> IdOf(f) in deleted
  }

  /** A level is saved as it should be exactly when no file is in it twice. */
  lemma {:induction false} SavedExactly(base: seq<File>, added: set<File>, deleted: set<Id>, out: seq<File>)
    requires Vector(base, added, deleted, out) && Distinguished(Elements(base) + added)
    ensures Saved(base, added, deleted, out) <==> NoneTwice(base, added, deleted)
  {
    if Saved(base, added, deleted, out) {
      forall f | f in base && f in added
        ensures IdOf(f) in deleted
      {
        AscendingCounts(out, f);
      }
    }
    if NoneTwice(base, added, deleted) {
      assert forall f :: f in base ==> f in Elements(base);
      assert Fresh(base, deleted, added);
    }
  }

  /** The files of a level that carry the UnderCompaction flag, in order. */
  function Flagged(v: seq<File>, under: set<Id>): seq<File> {
    if v == [] then [] else Flagged(v[..|v| - 1], under) + if IdOf(v[|v| - 1]) in under then [v[|v| - 1]] else []
  }

  lemma {:induction false} FlaggedElements(v: seq<File>, under: set<Id>)
    ensures |Flagged(v, under)| <= |v|
    ensures forall f :: f in Flagged(v, under) <==> f in v && IdOf(f) in under
  {
    if v != [] {
      FlaggedElements(v[..|v| - 1], under);
      assert v == v[..|v| - 1] + [v[|v| - 1]];
    }
  }

  // ----- The builder -----

  class Builder {
    const base: seq<seq<File>>
    var deleted: seq<set<Id>>
    var added: seq<seq<File>>

    ghost predicate Valid()
      reads this
    {
      && |base| == NUM_LEVELS && |deleted| == NUM_LEVELS && |added| == NUM_LEVELS
      && forall l :: 0 <= l < NUM_LEVELS ==>
           Ascending(base[l]) && Ascending(added[l]) && Distinguished(Elements(added[l]))
    }

    constructor (levels: seq<seq<File>>)
      requires |levels| == NUM_LEVELS && forall l :: 0 <= l < NUM_LEVELS ==> Ascending(levels[l])
      ensures Valid() && base == levels
      ensures forall l :: 0 <= l < NUM_LEVELS ==> deleted[l] == {} && added[l] == []
    {
      base := levels;
      deleted := seq(NUM_LEVELS, _ => {});
      added := seq(NUM_LEVELS, _ => []);
    }

    /** The order tells the added files apart. */
    ghost predicate Applicable(e: Edit)
      reads this
      requires Valid()
    {
      EditOk(e) && forall l :: 0 <= l < NUM_LEVELS ==> Distinguished(Elements(added[l]) + AddedAt(e, l))
    }

    method Delete(e: Edit)
      requires |deleted| == NUM_LEVELS && EditOk(e)
      modifies this`deleted
      ensures |deleted| == NUM_LEVELS
      ensures forall l :: 0 <= l < NUM_LEVELS ==> deleted[l] == old(deleted[l]) + DeletedAt(e, l)
    {
      for n := 0 to |e.deleted|
        invariant |deleted| == NUM_LEVELS
        invariant forall l :: 0 <= l < NUM_LEVELS ==> deleted[l] == old(deleted[l]) + At(e.deleted, l, n)
      {
        var (level, id) := e.deleted[n];
        assert e.deleted[n] in e.deleted;
        deleted := deleted[level := deleted[level] + {id}];
      }
    }

    /** Every added file is taken out of the deleted ones. */
    method Add(e: Edit)
      requires |deleted| == NUM_LEVELS && |added| == NUM_LEVELS && EditOk(e)
      requires forall l :: 0 <= l < NUM_LEVELS ==>
                 Ascending(added[l]) && Distinguished(Elements(added[l]) + AddedAt(e, l))
      modifies this`deleted, this`added
      ensures |deleted| == NUM_LEVELS && |added| == NUM_LEVELS
      ensures forall l :: 0 <= l < NUM_LEVELS ==>
                Grown(old(deleted[l]), old(added[l]), AddedAt(e, l), deleted[l], added[l])
    {
      for n := 0 to |e.added|
        invariant |deleted| == NUM_LEVELS && |added| == NUM_LEVELS
        invariant forall l :: 0 <= l < NUM_LEVELS ==>
                    Grown(old(deleted[l]), old(added[l]), At(e.added, l, n), deleted[l], added[l])
      {
        var (level, f) := e.added[n];
        assert e.added[n] in e.added;
        Listed(e, n);
        var v := InsertAdded(added[level], f);
        GrowsOn(old(deleted[level]), old(added[level]), At(e.added, level, n), f, deleted[level], added[level], v);
        deleted := deleted[level := deleted[level] - {IdOf(f)}];
        added := added[level := v];
      }
    }

    /** The deleted ids and the added files of a level after adding `more`. */
    static ghost predicate Grown(deleted: set<Id>, added: seq<File>, more: set<File>, d: set<Id>, a: seq<File>) {
      Ascending(a) && d == deleted - IdsOf(more) && Elements(a) == Elements(added) + more
    }

    static lemma {:induction false} GrowsOn(deleted: set<Id>, added: seq<File>, more: set<File>, f: File, d: set<Id>,
        a: seq<File>, v: seq<File>)
      requires Grown(deleted, added, more, d, a) && Ascending(v) && Elements(v) == Elements(a) + {f}
      ensures Grown(deleted, added, more + {f}, d - {IdOf(f)}, v)
    {
      assert IdsOf(more + {f}) == IdsOf(more) + {IdOf(f)};
    }

    /** Deletions first, then additions. */
    method Apply(e: Edit)
      requires Valid() && Applicable(e)
      modifies this
      ensures Valid()
      ensures forall l :: 0 <= l < NUM_LEVELS ==> deleted[l] == DeletedAfter(old(deleted[l]), e, l)
      ensures forall l :: 0 <= l < NUM_LEVELS ==> Elements(added[l]) == old(Elements(added[l])) + AddedAt(e, l)
    {
      Delete(e);
      Add(e);
    }

    /** Item `n` is among the additions of its level, and so are all items before it. */
    static lemma {:induction false} Listed(e: Edit, n: nat)
      requires n < |e.added|
      ensures e.added[n].1 in AddedAt(e, e.added[n].0)
      ensures IdOf(e.added[n].1) in IdsOf(AddedAt(e, e.added[n].0))
      ensures At(e.added, e.added[n].0, n) <= AddedAt(e, e.added[n].0)
    {
      AtIsListed(e.added, e.added[n].0, |e.added|);
      AtIsListed(e.added, e.added[n].0, n);
    }

    /** Saves every level.  The files added to a level lose their UnderCompaction flag, and the
        flagged files that remain are listed as in progress. */
    method SaveTo(under0: set<Id>) returns (levels: seq<seq<File>>, inProgress: seq<seq<File>>, under: set<Id>)
      requires Valid()
      ensures |levels| == NUM_LEVELS && |inProgress| == NUM_LEVELS
      ensures forall l :: 0 <= l < NUM_LEVELS ==> Vector(base[l], Elements(added[l]), deleted[l], levels[l])
      ensures under == under0 - AddedIds(added, NUM_LEVELS)
      ensures forall l :: 0 <= l < NUM_LEVELS ==> inProgress[l] == Flagged(levels[l], under0 - AddedIds(added, l + 1))
    {
      levels, inProgress, under := [], [], under0;
      for level := 0 to NUM_LEVELS
        invariant |levels| == level && |inProgress| == level
        invariant under == under0 - AddedIds(added, level)
        invariant forall l :: 0 <= l < level ==>
                    SavedWith(base[l], added, deleted[l], under0, l, levels[l], inProgress[l])
      {
        under := under - IdsOf(Elements(added[level]));
        var files := SaveLevel(base[level], added[level], deleted[level]);
        levels := levels + [files];
        inProgress := inProgress + [Flagged(files, under)];
      }
    }

    static ghost predicate SavedWith(base: seq<File>, added: seq<seq<File>>, deleted: set<Id>, under0: set<Id>, l: nat,
        files: seq<File>, inProgress: seq<File>)
      requires l < |added|
    {
      && Vector(base, Elements(added[l]), deleted, files)
      && inProgress == Flagged(files, under0 - AddedIds(added, l + 1))
    }
  }

  /** The ids of the files added to the first `n` levels. */
  function AddedIds(added: seq<seq<File>>, n: nat): set<Id>
    requires n <= |added|
  {
    if n == 0 then {} else AddedIds(added, n - 1) + IdsOf(Elements(added[n - 1]))
  }

  // ----- Many edits at once -----

  function AddedByAll(es: seq<Edit>, level: nat): set<File> {
    if es == [] then {} else AddedByAll(es[..|es| - 1], level) + AddedAt(es[|es| - 1], level)
  }

  function DeletedByAll(es: seq<Edit>, level: nat): set<Id> {
    if es == [] then {} else DeletedAfter(DeletedByAll(es[..|es| - 1], level), es[|es| - 1], level)
  }

  /** A level after one edit. */
  function EditedBy(files: set<File>, e: Edit, level: nat): set<File> {
    Edited(files, AddedAt(e, level), DeletedAfter({}, e, level))
  }

  ghost predicate IdsTellApart(fs: set<File>) {
    forall f, g :: f in fs && g in fs && IdOf(f) == IdOf(g) ==> f == g
  }

  /** What an edit means: the files it adds, and those there were that it does not delete. */
  lemma {:induction false} EditMeans(files: set<File>, e: Edit, level: nat, f: File)
    requires IdsTellApart(files + AddedAt(e, level))
    ensures f in EditedBy(files, e, level) <==>
              f in AddedAt(e, level) || (f in files && IdOf(f) !in DeletedAt(e, level))
  {
    if f in files && IdOf(f) in IdsOf(AddedAt(e, level)) {
      var g :| g in AddedAt(e, level) && IdOf(g) == IdOf(f);
      assert f in files + AddedAt(e, level) && g in files + AddedAt(e, level);
    }
    if f in AddedAt(e, level) {
      assert IdOf(f) in IdsOf(AddedAt(e, level));
    }
  }

  /** The level after applying and saving the edits one at a time. */
  function EditedOneByOne(files: set<File>, es: seq<Edit>, level: nat): set<File> {
    if es == [] then files else EditedBy(EditedOneByOne(files, es[..|es| - 1], level), es[|es| - 1], level)
  }

  /** Files may be added, deleted and added again: saving after every edit leaves the same files as saving
      once. */
  lemma {:induction false} EditsCommuteWithSaving(files: set<File>, es: seq<Edit>, level: nat)
    requires IdsTellApart(files + AddedByAll(es, level))
    ensures EditedOneByOne(files, es, level) == Edited(files, AddedByAll(es, level), DeletedByAll(es, level))
  {
    if es != [] {
      var rest, e := es[..|es| - 1], es[|es| - 1];
      EditsCommuteWithSaving(files, rest, level);
      var a := AddedAt(e, level);
      assert forall f :: f in a ==> IdOf(f) in IdsOf(a);
      forall f | f in files + AddedByAll(es, level) && IdOf(f) in IdsOf(a)
        ensures f in a
      {
        var g :| g in a && IdOf(g) == IdOf(f);
        assert g in files + AddedByAll(es, level);
      }
    }
  }

  /** `chain` are the vectors of a level when it is saved after every edit. */
  ghost predicate SavedEach(chain: seq<seq<File>>, es: seq<Edit>, level: nat) {
    && |chain| == |es| + 1
    && forall i, j :: 0 <= i < |es| && j == i + 1 ==>
         Vector(chain[i], AddedAt(es[i], level), DeletedAfter({}, es[i], level), chain[j])
  }

  /** No edit adds a file that is there already. */
  ghost predicate NonePresent(chain: seq<seq<File>>, es: seq<Edit>, level: nat)
    requires |chain| == |es| + 1
  {
    forall i :: 0 <= i < |es| ==> Elements(chain[i]) !! AddedAt(es[i], level)
  }

  /** The order and the ids tell all files apart that are ever at the level. */
  ghost predicate AllKnown(files: set<File>, es: seq<Edit>, level: nat) {
    IdsTellApart(files + AddedByAll(es, level)) && Distinguished(files + AddedByAll(es, level))
  }

  lemma {:induction false} AddedEarly(es: seq<Edit>, i: nat, level: nat)
    requires i < |es|
    ensures AddedByAll(es[..i], level) + AddedAt(es[i], level) == AddedByAll(es[..i + 1], level)
    ensures AddedByAll(es[..i + 1], level) <= AddedByAll(es, level)
    decreases |es|
  {
    assert es[..i + 1][..i] == es[..i];
    if i + 1 < |es| {
      var rest := es[..|es| - 1];
      AddedEarly(rest, i, level);
      assert rest[..i + 1] == es[..i + 1] && rest[..i] == es[..i];
    } else {
      assert es[..i + 1] == es;
    }
  }

  lemma {:induction false} OneByOneIsKnown(files: set<File>, es: seq<Edit>, level: nat)
    ensures EditedOneByOne(files, es, level) <= files + AddedByAll(es, level)
  {
    if es != [] {
      OneByOneIsKnown(files, es[..|es| - 1], level);
    }
  }

  /** One builder more: what is there is known, and what is added is not there. */
  lemma {:induction false} NextIsSaved(files: set<File>, es: seq<Edit>, i: nat, level: nat, cur: seq<File>,
      next: seq<File>)
    requires AllKnown(files, es, level) && i < |es| && Elements(cur) == EditedOneByOne(files, es[..i], level)
    requires Elements(cur) !! AddedAt(es[i], level)
    requires Vector(cur, AddedAt(es[i], level), DeletedAfter({}, es[i], level), next)
    ensures Saved(cur, AddedAt(es[i], level), DeletedAfter({}, es[i], level), next)
    ensures Elements(next) == EditedOneByOne(files, es[..i + 1], level)
  {
    AddedEarly(es, i, level);
    OneByOneIsKnown(files, es[..i], level);
    assert forall f :: f in cur ==> f in Elements(cur);
    assert es[..i + 1][..i] == es[..i];
    SavedExactly(cur, AddedAt(es[i], level), DeletedAfter({}, es[i], level), next);
  }

  lemma {:induction false} ChainElements(chain: seq<seq<File>>, es: seq<Edit>, level: nat, i: nat)
    requires SavedEach(chain, es, level) && NonePresent(chain, es, level) && Ascending(chain[0])
    requires AllKnown(Elements(chain[0]), es, level) && i <= |es|
    ensures Ascending(chain[i]) && Elements(chain[i]) == EditedOneByOne(Elements(chain[0]), es[..i], level)
  {
    if i > 0 {
      ChainElements(chain, es, level, i - 1);
      assert Vector(chain[i - 1], AddedAt(es[i - 1], level), DeletedAfter({}, es[i - 1], level), chain[i]);
      NextIsSaved(Elements(chain[0]), es, i - 1, level, chain[i - 1], chain[i]);
    }
  }

  /** Applying all edits and saving once gives the level that saving after every edit gives, if and only if
      every base file that is added again is deleted in the end. */
  lemma {:induction false} SaveOnceExactly(chain: seq<seq<File>>, es: seq<Edit>, level: nat, once: seq<File>)
    requires SavedEach(chain, es, level) && NonePresent(chain, es, level) && Ascending(chain[0])
    requires AllKnown(Elements(chain[0]), es, level)
    requires Vector(chain[0], AddedByAll(es, level), DeletedByAll(es, level), once)
    ensures once == chain[|es|] <==> NoneTwice(chain[0], AddedByAll(es, level), DeletedByAll(es, level))
  {
    ChainElements(chain, es, level, |es|);
    assert es[..|es|] == es;
    SameExactly(chain[0], es, level, once, chain[|es|]);
  }

  lemma {:induction false} SameExactly(base: seq<File>, es: seq<Edit>, level: nat, once: seq<File>, each: seq<File>)
    requires AllKnown(Elements(base), es, level)
    requires Vector(base, AddedByAll(es, level), DeletedByAll(es, level), once)
    requires Ascending(each) && Elements(each) == EditedOneByOne(Elements(base), es, level)
    ensures once == each <==> NoneTwice(base, AddedByAll(es, level), DeletedByAll(es, level))
  {
    EditsCommuteWithSaving(Elements(base), es, level);
    SavedExactly(base, AddedByAll(es, level), DeletedByAll(es, level), once);
    if Saved(base, AddedByAll(es, level), DeletedByAll(es, level), once) {
      AscendingIsUnique(once, each);
    }
  }

  /** A file that one edit deletes and the next one adds again: one builder saves it twice, a builder for each
      edit saves it once. */
  lemma {:induction false} ReaddedIsTwice(f: File)
    ensures var es := [Edit([(0, IdOf(f))], []), Edit([], [(0, f)])];
            && DeletedByAll(es, 0) == {} && AddedByAll(es, 0) == {f}
            && MergeFrom([f], 0, [f], 0, {}) == [f, f] && EditedOneByOne({f}, es, 0) == {f}
  {
    var d, a := Edit([(0, IdOf(f))], []), Edit([], [(0, f)]);
    var es := [d, a];
    assert At(d.deleted, 0, 0) == {} && At(a.added, 0, 0) == {};
    assert DeletedAt(d, 0) == {IdOf(f)} && AddedAt(d, 0) == {} && DeletedAt(a, 0) == {} && AddedAt(a, 0) == {f};
    assert IdsOf({}) == {} && IdsOf({f}) == {IdOf(f)};
    assert es[..1] == [d] && [d][..0] == [] && AddedByAll([], 0) == {} && DeletedByAll([], 0) == {};
    assert DeletedByAll([d], 0) == {IdOf(f)} && AddedByAll([d], 0) == {};
    assert EditedOneByOne({f}, [d], 0) == {};
    FileLessIsOrder(f, f, f);
    assert MergeFrom([f], 1, [f], 1, {}) == [];
    assert MergeFrom([f], 1, [f], 0, {}) == [f];
  }

  // ----- The same with builders -----

  /** What the edits must satisfy at every level; no edit adds a file that is there already. */
  ghost predicate AllFit(levels: seq<seq<File>>, es: seq<Edit>) {
    && |levels| == NUM_LEVELS && (forall e :: e in es ==> EditOk(e))
    && forall l :: 0 <= l < NUM_LEVELS ==>
         && Ascending(levels[l]) && AllKnown(Elements(levels[l]), es, l)
         && forall i :: 0 <= i < |es| ==> AddedAt(es[i], l) !! EditedOneByOne(Elements(levels[l]), es[..i], l)
  }

  lemma {:induction false} AddedAreApart(files: set<File>, es: seq<Edit>, i: nat, level: nat)
    requires AllKnown(files, es, level) && i < |es|
    ensures Distinguished(AddedByAll(es[..i], level) + AddedAt(es[i], level)) && Distinguished(AddedAt(es[i], level))
  {
    AddedEarly(es, i, level);
  }

  method SaveOnce(levels: seq<seq<File>>, es: seq<Edit>) returns (out: seq<seq<File>>)
    requires AllFit(levels, es)
    ensures |out| == NUM_LEVELS
    ensures forall l :: 0 <= l < NUM_LEVELS ==> Vector(levels[l], AddedByAll(es, l), DeletedByAll(es, l), out[l])
  {
    var b := new Builder(levels);
    for i := 0 to |es|
      invariant b.Valid() && b.base == levels
      invariant forall l :: 0 <= l < NUM_LEVELS ==>
                  Elements(b.added[l]) == AddedByAll(es[..i], l) && b.deleted[l] == DeletedByAll(es[..i], l)
    {
      forall l | 0 <= l < NUM_LEVELS
        ensures Distinguished(Elements(b.added[l]) + AddedAt(es[i], l))
      {
        AddedAreApart(Elements(levels[l]), es, i, l);
      }
      b.Apply(es[i]);
      assert es[..i + 1][..i] == es[..i];
    }
    assert es[..|es|] == es;
    var inProgress, under;
    out, inProgress, under := b.SaveTo({});
  }

  /** A builder for one edit. */
  method SaveOne(levels: seq<seq<File>>, e: Edit) returns (out: seq<seq<File>>)
    requires |levels| == NUM_LEVELS && EditOk(e)
    requires forall l :: 0 <= l < NUM_LEVELS ==> Ascending(levels[l]) && Distinguished(AddedAt(e, l))
    ensures |out| == NUM_LEVELS
    ensures forall l :: 0 <= l < NUM_LEVELS ==> Vector(levels[l], AddedAt(e, l), DeletedAfter({}, e, l), out[l])
  {
    var b := new Builder(levels);
    assert forall l :: 0 <= l < NUM_LEVELS ==> Elements(b.added[l]) + AddedAt(e, l) == AddedAt(e, l);
    b.Apply(e);
    var inProgress, under;
    out, inProgress, under := b.SaveTo({});
  }

  method SaveEach(levels: seq<seq<File>>, es: seq<Edit>) returns (out: seq<seq<File>>)
    requires AllFit(levels, es)
    ensures |out| == NUM_LEVELS
    ensures forall l :: 0 <= l < NUM_LEVELS ==>
              Ascending(out[l]) && Elements(out[l]) == EditedOneByOne(Elements(levels[l]), es, l)
  {
    out := levels;
    for i := 0 to |es|
      invariant |out| == NUM_LEVELS
      invariant forall l :: 0 <= l < NUM_LEVELS ==>
                  Ascending(out[l]) && Elements(out[l]) == EditedOneByOne(Elements(levels[l]), es[..i], l)
    {
      forall l | 0 <= l < NUM_LEVELS
        ensures Distinguished(AddedAt(es[i], l))
      {
        AddedAreApart(Elements(levels[l]), es, i, l);
      }
      var next := SaveOne(out, es[i]);
      forall l | 0 <= l < NUM_LEVELS
        ensures Ascending(next[l]) && Elements(next[l]) == EditedOneByOne(Elements(levels[l]), es[..i + 1], l)
      {
        NextIsSaved(Elements(levels[l]), es, i, l, out[l], next[l]);
      }
      out := next;
    }
    assert es[..|es|] == es;
  }

  /** One builder for all edits and one for each of them save the same version if and only if every base file
      that is added again is deleted in the end. */
  method SaveBothWays(levels: seq<seq<File>>, es: seq<Edit>) returns (once: seq<seq<File>>, each: seq<seq<File>>)
    requires AllFit(levels, es)
    ensures |once| == NUM_LEVELS == |each|
    ensures forall l :: 0 <= l < NUM_LEVELS ==>
              (once[l] == each[l] <==> NoneTwice(levels[l], AddedByAll(es, l), DeletedByAll(es, l)))
  {
    once := SaveOnce(levels, es);
    each := SaveEach(levels, es);
    forall l | 0 <= l < NUM_LEVELS
      ensures once[l] == each[l] <==> NoneTwice(levels[l], AddedByAll(es, l), DeletedByAll(es, l))
    {
      SameExactly(levels[l], es, l, once[l], each[l]);
    }
  }
}
