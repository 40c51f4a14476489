/**
 Every step of the tree's life keeps its invariants.
 */
module LsmSteps {
  import opened Keys
  import opened Versions
  import opened VersionBuilder
  import opened Scheduler
  import opened ReadSets
  import opened Lsm
  import Merge

  // ----- Ranges -----

  lemma {:induction false} OutsideIsApart(g: File, fs: seq<File>, f: File)
    requires f in fs && Outside(g, fs)
    ensures Apart(g, f) && Apart(f, g)
  {
    RangeOf(fs);
  }

  /** A file that misses `in0`'s range and every file of `in1` misses the range of all of them,
      since each file of `in1` reaches into `in0`'s range. */
  lemma {:induction false} OutsideByParts(g: File, in0: seq<File>, in1: seq<File>)
    requires in0 != [] && g.smallest.user <= g.largest.user
    requires !Overlaps(g, MinKey(in0), MaxKey(in0))
    requires forall h :: h in in1 ==> Overlaps(h, MinKey(in0), MaxKey(in0)) && Apart(g, h)
    ensures Outside(g, in0 + in1)
  {
    RangeOf(in0);
    RangeOf(in0 + in1);
    var a :| a in in0 + in1 && a.smallest.user == MinKey(in0 + in1);
    var b :| b in in0 + in1 && b.largest.user == MaxKey(in0 + in1);
    assert a in in0 || a in in1;
    assert b in in0 || b in in1;
  }

  /** Files that all miss a range, and all meet one file that misses it, lie on one side of it. */
  lemma {:induction false} HullsApartBy(f: File, in1: seq<File>, other: seq<File>)
    requires other != [] && MinKey(other) <= MaxKey(other) && f.smallest.user <= f.largest.user
    requires Outside(f, other)
    requires forall h :: h in in1 ==> Outside(h, other) && Overlaps(h, f.smallest.user, f.largest.user)
    ensures HullsApart([f] + in1, other)
  {
    var all := [f] + in1;
    RangeOf(all);
    var a :| a in all && a.smallest.user == MinKey(all);
    var b :| b in all && b.largest.user == MaxKey(all);
    assert a == f || a in in1;
    assert b == f || b in in1;
  }

  // ----- What an edit does to the levels -----

  /** What level `l` holds once `gone` has left and `outs` has arrived at level `m`. */
  ghost predicate LevelIs(s: State, s': State, l: nat, gone: seq<File>, m: nat, outs: seq<File>)
    requires Shaped(s) && Shaped(s') && l < NUM_LEVELS
  {
    && Ascending(s'.levels[l])
    && forall f :: f in s'.levels[l] <==> (f in s.levels[l] && f !in gone) || (l == m && f in outs)
  }

  /** The flags of level `l`: what stays keeps its flag, what arrives has none. */
  ghost predicate FlagsAre(s: State, s': State, l: nat, outs: seq<File>)
    requires Shaped(s') && l < NUM_LEVELS
  {
    && (forall f :: f in s'.levels[l] ==> (IdOf(f) in s'.under <==> IdOf(f) in s.under && f !in outs))
    && ProgressIs(s', l)
  }

  /** The files `gone` left, the files `outs` arrived at level `m`, and the flags followed. */
  ghost predicate Replaced(s: State, s': State, gone: seq<File>, m: nat, outs: seq<File>)
    requires Shaped(s)
  {
    && Shaped(s')
    && (forall l :: 0 <= l < NUM_LEVELS ==> LevelIs(s, s', l, gone, m, outs))
    && (forall l :: 0 <= l < NUM_LEVELS ==> FlagsAre(s, s', l, outs))
    && s'.under <= s'.used && s.used <= s'.used
    && forall f :: f in outs ==> IdOf(f) in s'.used
  }

  lemma {:induction false} FlaggedOnce(v: seq<File>, under: set<Id>)
    requires Ascending(v)
    ensures NoRepeats(Flagged(v, under))
  {
    if v != [] {
      var w, f := v[..|v| - 1], v[|v| - 1];
      FlaggedOnce(w, under);
      FlaggedElements(w, under);
      FileLessIsOrder(f, f, f);
      assert forall i :: 0 <= i < |w| ==> FileLess(w[i], f);
    }
  }

  /** The edit adds exactly `outs`, at level `m`. */
  ghost predicate Adds(e: Edit, m: nat, outs: seq<File>) {
    forall l: nat :: AddedAt(e, l) == if l == m then Elements(outs) else {}
  }

  lemma {:induction false} AddedIdsBelow(e: Edit, m: nat, outs: seq<File>, n: nat)
    requires Adds(e, m, outs)
    ensures AddedBelow(e, n) == if n > m then IdsOf(Elements(outs)) else {}
  {
    if n > 0 {
      AddedIdsBelow(e, m, outs, n - 1);
      assert IdsOf({}) == {};
    }
  }

  /** Among the files of `s`, the edit deletes exactly `gone`, and nothing it adds. */
  ghost predicate Deletes(s: State, e: Edit, gone: seq<File>, m: nat, outs: seq<File>)
    requires Shaped(s)
  {
    && (forall l, f :: 0 <= l < NUM_LEVELS && f in s.levels[l] ==> (IdOf(f) in DeletedAt(e, l) <==> f in gone))
    && forall f :: f in outs ==> IdOf(f) !in DeletedAt(e, m)
  }

  /** The new files are new, or come from the files that leave. */
  ghost predicate Arrive(s: State, gone: seq<File>, outs: seq<File>)
    requires Shaped(s)
  {
    && (forall f :: f in outs ==>
          IdOf(f) !in s.used || (f in gone && exists l :: 0 <= l < NUM_LEVELS && f in s.levels[l]))
    && forall f, g :: f in outs && g in outs && IdOf(f) == IdOf(g) ==> f == g
  }

  /** A file that stays has no id in common with one that arrives. */
  lemma {:induction false} StaysIsOther(s: State, gone: seq<File>, outs: seq<File>, l: nat, f: File)
    requires Shaped(s) && IdsKnown(s) && IdsUnique(s) && Arrive(s, gone, outs)
    requires l < NUM_LEVELS && f in s.levels[l] && f !in gone
    ensures IdOf(f) !in IdsOf(Elements(outs)) && f !in outs
  {
    forall g | g in outs
      ensures IdOf(g) != IdOf(f)
    {
      if IdOf(g) in s.used {
        var k :| 0 <= k < NUM_LEVELS && g in s.levels[k];
        assert IdOf(g) == IdOf(f) ==> f == g;
      }
    }
  }

  lemma {:induction false} NothingReadded(s: State, e: Edit, gone: seq<File>, m: nat, outs: seq<File>, l: nat)
    requires Shaped(s) && Adds(e, m, outs) && Deletes(s, e, gone, m, outs)
    ensures DeletedAfter({}, e, l) == DeletedAt(e, l)
  {
    assert IdsOf({}) == {};
    assert forall f :: f in outs <==> f in Elements(outs);
  }

  lemma {:induction false} LevelAfter(s: State, s': State, e: Edit, gone: seq<File>, m: nat, outs: seq<File>, l: nat)
    requires Shaped(s) && Applied(s, s', e) && Adds(e, m, outs) && Deletes(s, e, gone, m, outs) && l < NUM_LEVELS
    ensures LevelIs(s, s', l, gone, m, outs)
  {
    NothingReadded(s, e, gone, m, outs, l);
    assert Saved(s.levels[l], AddedAt(e, l), DeletedAt(e, l), s'.levels[l]);
    forall f
      ensures f in s'.levels[l] <==> (f in s.levels[l] && f !in gone) || (l == m && f in outs)
    {
      assert f in s'.levels[l] <==> f in Elements(s'.levels[l]);
    }
  }

  lemma {:induction false} FlagsOfLevel(v: seq<File>, under: set<Id>, ids: set<Id>, outs: seq<File>, here: bool)
    requires ids == IdsOf(Elements(outs))
    requires forall f :: f in v && f !in outs ==> IdOf(f) !in ids
    requires !here ==> forall f :: f in v ==> f !in outs
    ensures forall f :: f in v ==> (IdOf(f) in under - ids <==> IdOf(f) in under && f !in outs)
    ensures forall f :: f in Flagged(v, under - if here then ids else {}) <==> f in v && IdOf(f) in under - ids
  {
    FlaggedElements(v, under - if here then ids else {});
    assert forall f :: f in outs ==> f in Elements(outs);
  }

  lemma {:induction false} OthersStay(s: State, s': State, gone: seq<File>, m: nat, outs: seq<File>, l: nat)
    requires Shaped(s) && Shaped(s') && IdsKnown(s) && IdsUnique(s) && Arrive(s, gone, outs) && l < NUM_LEVELS
    requires LevelIs(s, s', l, gone, m, outs)
    ensures forall f :: f in s'.levels[l] && f !in outs ==> IdOf(f) !in IdsOf(Elements(outs))
    ensures l < m ==> forall f :: f in s'.levels[l] ==> f !in outs && IdOf(f) !in IdsOf(Elements(outs))
  {
    forall f | f in s'.levels[l] && (f !in outs || l < m)
      ensures f !in outs && IdOf(f) !in IdsOf(Elements(outs))
    {
      StaysIsOther(s, gone, outs, l, f);
    }
  }

  lemma {:induction false} FlagsAfter(s: State, s': State, e: Edit, gone: seq<File>, m: nat, outs: seq<File>, l: nat)
    requires Shaped(s) && IdsKnown(s) && IdsUnique(s) && Arrive(s, gone, outs) && l < NUM_LEVELS && m < NUM_LEVELS
    requires Shaped(s') && s'.under == s.under - AddedBelow(e, NUM_LEVELS) && Adds(e, m, outs)
    requires s'.inProgress[l] == Flagged(s'.levels[l], s.under - AddedBelow(e, l + 1))
    requires LevelIs(s, s', l, gone, m, outs)
    ensures FlagsAre(s, s', l, outs)
  {
    AddedIdsBelow(e, m, outs, NUM_LEVELS);
    AddedIdsBelow(e, m, outs, l + 1);
    OthersStay(s, s', gone, m, outs, l);
    FlagsFrom(s, s', outs, IdsOf(Elements(outs)), l, l >= m);
  }

  lemma {:induction false} FlagsFrom(s: State, s': State, outs: seq<File>, ids: set<Id>, l: nat, here: bool)
    requires Shaped(s') && l < NUM_LEVELS && Ascending(s'.levels[l]) && ids == IdsOf(Elements(outs))
    requires s'.under == s.under - ids
    requires s'.inProgress[l] == Flagged(s'.levels[l], s.under - if here then ids else {})
    requires forall f :: f in s'.levels[l] && f !in outs ==> IdOf(f) !in ids
    requires !here ==> forall f :: f in s'.levels[l] ==> f !in outs
    ensures FlagsAre(s, s', l, outs)
  {
    FlagsOfLevel(s'.levels[l], s.under, ids, outs, here);
    FlaggedOnce(s'.levels[l], s.under - if here then ids else {});
  }

  lemma {:induction false} EditReplaces(s: State, s': State, e: Edit, gone: seq<File>, m: nat, outs: seq<File>)
    requires Shaped(s) && IdsKnown(s) && IdsUnique(s) && m < NUM_LEVELS && Arrive(s, gone, outs)
    requires Applied(s, s', e) && Adds(e, m, outs) && Deletes(s, e, gone, m, outs)
    ensures Replaced(s, s', gone, m, outs)
  {
    AddedIdsBelow(e, m, outs, NUM_LEVELS);
    forall l | 0 <= l < NUM_LEVELS
      ensures LevelIs(s, s', l, gone, m, outs) && FlagsAre(s, s', l, outs)
    {
      LevelAfter(s, s', e, gone, m, outs, l);
      FlagsAfter(s, s', e, gone, m, outs, l);
    }
    assert forall f :: f in outs ==> f in Elements(outs);
  }

  // ----- The three edits -----

  lemma {:induction false} TaggedAt<T>(level: nat, items: seq<T>, l: nat)
    ensures forall x :: x in At(Tagged(level, items), l, |items|) <==> l == level && x in items
  {
    var list := Tagged(level, items);
    AtIsListed(list, l, |list|);
    forall x | l == level && x in items
      ensures x in At(list, l, |list|)
    {
      var i :| 0 <= i < |items| && items[i] == x;
      assert list[i].0 == l;
    }
  }

  lemma {:induction false} TwoTaggedAt<T>(level: nat, a: seq<T>, b: seq<T>, l: nat)
    ensures var list := Tagged(level, a) + Tagged(level + 1, b);
            forall x :: x in At(list, l, |list|) <==> (l == level && x in a) || (l == level + 1 && x in b)
  {
    var list := Tagged(level, a) + Tagged(level + 1, b);
    AtIsListed(list, l, |list|);
    forall x | (l == level && x in a) || (l == level + 1 && x in b)
      ensures x in At(list, l, |list|)
    {
      if l == level {
        var i :| 0 <= i < |a| && a[i] == x;
        assert list[i] == (l, x);
      } else {
        var i :| 0 <= i < |b| && b[i] == x;
        assert list[|a| + i] == (l, x);
      }
    }
  }

  lemma {:induction false} InIds(fs: seq<File>, id: Id)
    ensures id in Ids(fs) <==> exists f :: f in fs && IdOf(f) == id
  {
    forall f | f in fs
      ensures IdOf(f) in Ids(fs)
    {
      var i :| 0 <= i < |fs| && fs[i] == f;
      assert Ids(fs)[i] == IdOf(f);
    }
  }

  lemma {:induction false} FlushReplaces(s: State, s': State, f: File)
    requires Shaped(s) && IdsKnown(s) && IdsUnique(s) && Flush(s, s', f)
    ensures Replaced(s, s', [], 0, [f]) && Arrive(s, [], [f])
  {
    FlushAdds(f);
    EditReplaces(s, s', FlushEdit(f), [], 0, [f]);
  }

  lemma {:induction false} FlushAdds(f: File)
    ensures Adds(FlushEdit(f), 0, [f]) && EditOk(FlushEdit(f))
  {
    forall l: nat
      ensures AddedAt(FlushEdit(f), l) == if l == 0 then Elements([f]) else {}
    {
      AtIsListed(FlushEdit(f).added, l, 1);
    }
  }

  lemma {:induction false} CompactionDeletes(s: State, j: Job, outs: seq<File>)
    requires Shaped(s) && IdsKnown(s) && IdsUnique(s) && JobOk(s, j)
    requires forall f :: f in outs ==> IdOf(f) !in s.used
    ensures Deletes(s, CompactionEdit(j, outs), Inputs(j), j.level + 1, outs)
  {
    var e := CompactionEdit(j, outs);
    forall l, f | 0 <= l < NUM_LEVELS && f in s.levels[l]
      ensures IdOf(f) in DeletedAt(e, l) <==> f in Inputs(j)
    {
      TwoTaggedAt(j.level, Ids(j.in0), Ids(j.in1), l);
      InIds(j.in0, IdOf(f));
      InIds(j.in1, IdOf(f));
    }
    forall f | f in outs
      ensures IdOf(f) !in DeletedAt(e, j.level + 1)
    {
      TwoTaggedAt(j.level, Ids(j.in0), Ids(j.in1), j.level + 1);
      InIds(j.in1, IdOf(f));
    }
  }

  lemma {:induction false} CompactionAdds(j: Job, outs: seq<File>)
    ensures Adds(CompactionEdit(j, outs), j.level + 1, outs)
  {
    var e := CompactionEdit(j, outs);
    forall l: nat
      ensures AddedAt(e, l) == if l == j.level + 1 then Elements(outs) else {}
    {
      TaggedAt(j.level + 1, outs, l);
    }
  }

  lemma {:induction false} FreshArrive(s: State, gone: seq<File>, outs: seq<File>)
    requires Shaped(s) && FreshIds(s, outs)
    ensures Arrive(s, gone, outs)
  {
    assert forall a, b :: 0 <= a < |outs| && 0 <= b < |outs| && IdOf(outs[a]) == IdOf(outs[b]) ==> a == b;
  }

  lemma {:induction false} FinishReplaces(s: State, s': State, j: Job, outs: seq<File>)
    requires Shaped(s) && IdsKnown(s) && IdsUnique(s) && JobOk(s, j) && FreshIds(s, outs)
    requires Applied(s, s', CompactionEdit(j, outs))
    ensures Replaced(s, s', Inputs(j), j.level + 1, outs) && Arrive(s, Inputs(j), outs)
  {
    CompactionAdds(j, outs);
    CompactionDeletes(s, j, outs);
    FreshArrive(s, Inputs(j), outs);
    EditReplaces(s, s', CompactionEdit(j, outs), Inputs(j), j.level + 1, outs);
  }

  lemma {:induction false} MoveEdit(s: State, j: Job, f: File)
    requires Shaped(s) && IdsUnique(s) && j.level + 1 < NUM_LEVELS && f in s.levels[j.level]
    ensures var e := Edit([(j.level, IdOf(f))], [(j.level + 1, f)]);
            Adds(e, j.level + 1, [f]) && Deletes(s, e, [f], j.level + 1, [f]) && EditOk(e)
  {
    var e := Edit([(j.level, IdOf(f))], [(j.level + 1, f)]);
    forall l: nat
      ensures AddedAt(e, l) == if l == j.level + 1 then Elements([f]) else {}
      ensures DeletedAt(e, l) == if l == j.level then {IdOf(f)} else {}
    {
      AtIsListed(e.added, l, 1);
      AtIsListed(e.deleted, l, 1);
    }
  }

  lemma {:induction false} OneMoves(s: State, s': State, j: Job, f: File, e: Edit)
    requires Shaped(s) && IdsKnown(s) && IdsUnique(s) && j.level + 1 < NUM_LEVELS && f in s.levels[j.level]
    requires e == Edit([(j.level, IdOf(f))], [(j.level + 1, f)]) && Applied(s, s', e)
    ensures Replaced(s, s', [f], j.level + 1, [f]) && Arrive(s, [f], [f])
  {
    MoveEdit(s, j, f);
    assert Arrive(s, [f], [f]);
    EditReplaces(s, s', e, [f], j.level + 1, [f]);
  }

  lemma {:induction false} MoveReplaces(s: State, s': State, j: Job)
    requires Shaped(s) && IdsKnown(s) && IdsUnique(s) && JobOk(s, j)
    requires Trivial(j) && Applied(s, s', MoveEditOf(j))
    ensures Replaced(s, s', Inputs(j), j.level + 1, j.in0) && Arrive(s, Inputs(j), j.in0)
  {
    var f := j.in0[0];
    assert Inputs(j) == [f] == j.in0;
    OneMoves(s, s', j, f, MoveEditOf(j));
  }

  // ----- Keeping the levels in order -----

  /** What the new files must satisfy among those that stay. */
  ghost predicate OutsFit(s: State, gone: seq<File>, m: nat, outs: seq<File>)
    requires Shaped(s) && m < NUM_LEVELS
  {
    && (forall f :: f in outs ==> FileOk(f))
    && (forall f, g :: f in outs && g in outs && f != g ==> Neighbours(m, f, g))
    && (forall f, g :: f in outs && g in s.levels[m] && g !in gone ==> Neighbours(m, f, g) && Neighbours(m, g, f))
    && (forall i, f, g :: 0 <= i < m && f in s.levels[i] && f !in gone && g in outs ==> NewerThan(f, g))
    && (forall i, f, g :: m < i < NUM_LEVELS && f in outs && g in s.levels[i] && g !in gone ==> NewerThan(f, g))
  }

  lemma {:induction false} FilesKept(s: State, s': State, gone: seq<File>, m: nat, outs: seq<File>)
    requires Shaped(s) && FilesOk(s) && Replaced(s, s', gone, m, outs) && forall f :: f in outs ==> FileOk(f)
    ensures FilesOk(s')
  {
    forall l, f | 0 <= l < NUM_LEVELS && f in s'.levels[l]
      ensures FileOk(f)
    {
      assert LevelIs(s, s', l, gone, m, outs);
    }
    forall l | 0 <= l < NUM_LEVELS
      ensures Ascending(s'.levels[l])
    {
      assert LevelIs(s, s', l, gone, m, outs);
    }
  }

  lemma {:induction false} IdsKept(s: State, s': State, gone: seq<File>, m: nat, outs: seq<File>)
    requires Shaped(s) && IdsKnown(s) && IdsUnique(s) && Arrive(s, gone, outs) && Replaced(s, s', gone, m, outs)
    ensures IdsKnown(s') && IdsUnique(s')
  {
    forall l, f | 0 <= l < NUM_LEVELS && f in s'.levels[l]
      ensures IdOf(f) in s'.used
    {
      assert LevelIs(s, s', l, gone, m, outs);
    }
    forall l, k, f, g | 0 <= l < NUM_LEVELS && 0 <= k < NUM_LEVELS && f in s'.levels[l] && g in s'.levels[k]
                        && IdOf(f) == IdOf(g)
      ensures l == k && f == g
    {
      IdsKeptOne(s, s', gone, m, outs, l, f, k, g);
    }
  }

  lemma {:induction false} IdsKeptOne(s: State, s': State, gone: seq<File>, m: nat, outs: seq<File>, l: nat,
      f: File, k: nat, g: File)
    requires Shaped(s) && IdsKnown(s) && IdsUnique(s) && Arrive(s, gone, outs) && Replaced(s, s', gone, m, outs)
    requires l < NUM_LEVELS && k < NUM_LEVELS && f in s'.levels[l] && g in s'.levels[k] && IdOf(f) == IdOf(g)
    ensures l == k && f == g
  {
    assert LevelIs(s, s', l, gone, m, outs) && LevelIs(s, s', k, gone, m, outs);
    assert f in outs ==> IdOf(f) in IdsOf(Elements(outs));
    assert g in outs ==> IdOf(g) in IdsOf(Elements(outs));
    if f in s.levels[l] && f !in gone {
      StaysIsOther(s, gone, outs, l, f);
    }
    if g in s.levels[k] && g !in gone {
      StaysIsOther(s, gone, outs, k, g);
    }
  }

  lemma {:induction false} LevelsKept(s: State, s': State, gone: seq<File>, m: nat, outs: seq<File>)
    requires Shaped(s) && LevelsOk(s) && m < NUM_LEVELS && OutsFit(s, gone, m, outs) && Replaced(s, s', gone, m, outs)
    ensures LevelsOk(s')
  {
    forall l, f, g | 0 <= l < NUM_LEVELS && f in s'.levels[l] && g in s'.levels[l] && f != g
      ensures Neighbours(l, f, g)
    {
      assert LevelIs(s, s', l, gone, m, outs);
    }
    forall i, j, f, g | 0 <= i < j < |s'.levels| && f in s'.levels[i] && g in s'.levels[j]
      ensures NewerThan(f, g)
    {
      assert LevelIs(s, s', i, gone, m, outs) && LevelIs(s, s', j, gone, m, outs);
    }
  }

  // ----- Keeping the jobs apart -----

  /** The remaining compactions lose no input, and nothing arrives in their way. */
  ghost predicate JobsFit(s: State, jobs: set<Job>, gone: seq<File>, m: nat, outs: seq<File>)
    requires Shaped(s)
  {
    && jobs <= s.jobs
    && (forall k, f :: k in jobs && f in Inputs(k) ==> f !in gone)
    && (forall k, f :: k in jobs && k.in0 != [] && k.level + 1 == m && f in outs ==> Outside(f, Inputs(k)))
    && (forall k, f, g :: k in jobs && k.level == 0 && m == 0 && f in outs && g in k.in0 ==> f.number > g.number)
  }

  lemma {:induction false} JobKept(s: State, s': State, gone: seq<File>, m: nat, outs: seq<File>, k: Job)
    requires Shaped(s) && Replaced(s, s', gone, m, outs) && JobsFit(s, s'.jobs, gone, m, outs)
    requires k in s'.jobs && JobOk(s, k) && JobClear(s, k)
    ensures JobOk(s', k) && JobClear(s', k)
  {
    assert LevelIs(s, s', k.level, gone, m, outs) && LevelIs(s, s', k.level + 1, gone, m, outs);
    assert LevelIs(s, s', 0, gone, m, outs);
    assert forall f :: f in k.in0 || f in k.in1 ==> f in Inputs(k);
  }

  lemma {:induction false} JobsKept(s: State, s': State, gone: seq<File>, m: nat, outs: seq<File>)
    requires Shaped(s) && JobsOk(s) && Replaced(s, s', gone, m, outs) && JobsFit(s, s'.jobs, gone, m, outs)
    ensures JobsOk(s')
  {
    forall k | k in s'.jobs
      ensures JobOk(s', k) && JobClear(s', k)
    {
      JobKept(s, s', gone, m, outs, k);
    }
  }

  /** The files in flight are those that were, less the files that left. */
  ghost predicate FlightFits(s: State, s': State, gone: seq<File>, outs: seq<File>) {
    && (forall f :: f !in gone ==> (InFlight(s, f) <==> InFlight(s', f)))
    && forall f :: f in outs ==> !InFlight(s', f)
  }

  lemma {:induction false} FlagsKept(s: State, s': State, gone: seq<File>, m: nat, outs: seq<File>)
    requires Shaped(s) && FlagsOk(s) && Replaced(s, s', gone, m, outs) && FlightFits(s, s', gone, outs)
    ensures FlagsOk(s')
  {
    forall l, f | 0 <= l < NUM_LEVELS && f in s'.levels[l]
      ensures IdOf(f) in s'.under <==> InFlight(s', f)
    {
      assert LevelIs(s, s', l, gone, m, outs) && FlagsAre(s, s', l, outs);
    }
    forall l | 0 <= l < NUM_LEVELS
      ensures ProgressIs(s', l)
    {
      assert FlagsAre(s, s', l, outs);
    }
  }

  // ----- Flush -----

  /** A table with tight bounds is a well-formed file. */
  lemma {:induction false} TightIsOk(f: File)
    requires Merge.TightBounds(Merge.Table(f.smallest, f.largest, f.entries)) && Merge.AllParse(f.entries)
    ensures FileOk(f)
  {
    var t := Merge.Table(f.smallest, f.largest, f.entries);
    forall i | 0 <= i < |f.entries|
      ensures Parses(f.entries[i].key) && f.smallest.user <= f.entries[i].key.user <= f.largest.user
      ensures !Less(f.largest, f.entries[i].key)
    {
      Merge.EntriesWithinBounds(t, i);
      assert f.entries[i] in f.entries;
    }
    Merge.EntriesWithinBounds(t, 0);
  }

  lemma {:induction false} FlushedFile(t: seq<Entry>, f: File)
    requires FlushOf(t, f) && Merge.AllParse(t)
    ensures FileOk(f) && forall e :: e in f.entries ==> e in t
  {
    Merge.FlushBounds(t);
    Merge.SurvivorsAreKept(t, None, |t|);
    TightIsOk(f);
  }

  lemma {:induction false} FlushFits(s: State, f: File)
    requires Shaped(s) && MemsOk(s) && FlushOf(Oldest(s).entries, f)
    requires forall g :: g in s.levels[0] ==> g.number < f.number
    ensures OutsFit(s, [], 0, [f])
  {
    assert Oldest(s) in s.mems;
    FlushedFile(Oldest(s).entries, f);
    forall l, g | 0 <= l < NUM_LEVELS && g in s.levels[l]
      ensures NewerThan(f, g)
    {
    }
  }

  lemma {:induction false} FlushJobsFit(s: State, s': State, f: File)
    requires Shaped(s) && IdsKnown(s) && JobsOk(s) && Flush(s, s', f)
    ensures JobsFit(s, s'.jobs, [], 0, [f]) && FlightFits(s, s', [], [f])
  {
    forall k, g | k in s.jobs && g in Inputs(k)
      ensures IdOf(g) in s.used && (k.level == 0 && g in k.in0 ==> g.number < f.number)
    {
      assert JobOk(s, k);
    }
  }

  lemma {:induction false} FlushKeepsTree(s: State, s': State, f: File)
    requires Inv(s) && Flush(s, s', f)
    ensures Shaped(s') && FilesOk(s') && IdsKnown(s') && IdsUnique(s') && LevelsOk(s') && JobsOk(s') && FlagsOk(s')
  {
    FlushReplaces(s, s', f);
    FlushFits(s, f);
    FlushJobsFit(s, s', f);
    FilesKept(s, s', [], 0, [f]);
    IdsKept(s, s', [], 0, [f]);
    LevelsKept(s, s', [], 0, [f]);
    JobsKept(s, s', [], 0, [f]);
    FlagsKept(s, s', [], 0, [f]);
  }

  // ----- Finishing a compaction -----

  lemma {:induction false} OutComesFromInputs(j: Job, es: seq<Entry>, ts: seq<Merge.Table>, outs: seq<File>,
      f: File, a: Entry)
    requires MergedInto(j, es, ts, outs) && f in outs && a in f.entries
    ensures exists h :: h in Inputs(j) && a in h.entries
  {
    var i :| 0 <= i < |outs| && outs[i] == f;
    var q :| 0 <= q < |f.entries| && f.entries[q] == a;
    Merge.ConcatIndex(ts, i, q);
    Merge.SurvivorsAreKept(es, None, |es|);
    assert a in Entries(es);
  }

  lemma {:induction false} OutFile(s: State, j: Job, es: seq<Entry>, ts: seq<Merge.Table>, outs: seq<File>, f: File)
    requires Shaped(s) && FilesOk(s) && JobOk(s, j) && MergedInto(j, es, ts, outs) && f in outs
    ensures FileOk(f) && MinKey(Inputs(j)) <= f.smallest.user && f.largest.user <= MaxKey(Inputs(j))
  {
    var i :| 0 <= i < |outs| && outs[i] == f;
    assert Merge.TightBounds(ts[i]);
    RangeOf(Inputs(j));
    forall a | a in f.entries
      ensures Parses(a.key) && MinKey(Inputs(j)) <= a.key.user <= MaxKey(Inputs(j))
    {
      OutComesFromInputs(j, es, ts, outs, f, a);
      var h :| h in Inputs(j) && a in h.entries;
      assert FileOk(h);
    }
    TightIsOk(f);
    assert f.entries[0] in f.entries && f.entries[|f.entries| - 1] in f.entries;
  }

  /** Files that stay are newer than the output on shallower levels, older on deeper ones. */
  lemma {:induction false} OutAge(s: State, j: Job, es: seq<Entry>, ts: seq<Merge.Table>, outs: seq<File>, f: File,
      i: nat, g: File)
    requires Shaped(s) && FilesOk(s) && LevelsOk(s) && JobOk(s, j) && JobClear(s, j) && MergedInto(j, es, ts, outs)
    requires f in outs && i < NUM_LEVELS && g in s.levels[i] && g !in Inputs(j)
    ensures i <= j.level ==> NewerThan(g, f)
    ensures i > j.level + 1 ==> NewerThan(f, g)
  {
    forall a, b | a in f.entries && b in g.entries && a.key.user == b.key.user
      ensures i <= j.level ==> b.key.seqno > a.key.seqno
      ensures i > j.level + 1 ==> a.key.seqno > b.key.seqno
    {
      OutComesFromInputs(j, es, ts, outs, f, a);
      var h :| h in Inputs(j) && a in h.entries;
      InputAge(s, j, h, i, g);
    }
  }

  lemma {:induction false} InputAge(s: State, j: Job, h: File, i: nat, g: File)
    requires Shaped(s) && FilesOk(s) && LevelsOk(s) && JobOk(s, j) && JobClear(s, j)
    requires h in Inputs(j) && i < NUM_LEVELS && g in s.levels[i] && g !in Inputs(j)
    ensures i <= j.level ==> NewerThan(g, h)
    ensures i > j.level + 1 ==> NewerThan(h, g)
  {
    var l := if h in j.in0 then j.level else j.level + 1;
    assert h in s.levels[l];
    if i == l {
      assert Neighbours(l, g, h) && FileOk(g) && FileOk(h);
      assert l > 0 ==> NewerThan(g, h);
      assert l == 0 ==> g.number > h.number;
    } else if i < l {
      assert NewerThan(g, h);
    } else {
      assert NewerThan(h, g);
    }
  }

  lemma {:induction false} OutsApart(j: Job, es: seq<Entry>, ts: seq<Merge.Table>, outs: seq<File>)
    requires MergedInto(j, es, ts, outs)
    ensures forall f, g :: f in outs && g in outs && f != g ==> Apart(f, g)
  {
    forall f, g | f in outs && g in outs && f != g
      ensures Apart(f, g)
    {
      var a :| 0 <= a < |outs| && outs[a] == f;
      var b :| 0 <= b < |outs| && outs[b] == g;
      assert a < b ==> ts[a].largest.user < ts[b].smallest.user;
      assert b < a ==> ts[b].largest.user < ts[a].smallest.user;
    }
  }

  lemma {:induction false} OutsNeighbours(s: State, j: Job, es: seq<Entry>, ts: seq<Merge.Table>, outs: seq<File>)
    requires Shaped(s) && FilesOk(s) && JobOk(s, j) && JobClear(s, j) && MergedInto(j, es, ts, outs)
    ensures forall f, g :: f in outs && g in s.levels[j.level + 1] && g !in Inputs(j) ==> Apart(f, g) && Apart(g, f)
  {
    forall f, g | f in outs && g in s.levels[j.level + 1] && g !in Inputs(j)
      ensures Apart(f, g) && Apart(g, f)
    {
      OutFile(s, j, es, ts, outs, f);
      assert Outside(g, Inputs(j));
    }
  }

  lemma {:induction false} OutsAges(s: State, j: Job, es: seq<Entry>, ts: seq<Merge.Table>, outs: seq<File>)
    requires Shaped(s) && FilesOk(s) && LevelsOk(s) && JobOk(s, j) && JobClear(s, j) && MergedInto(j, es, ts, outs)
    ensures forall f, i, g :: f in outs && 0 <= i < j.level + 1 && g in s.levels[i] && g !in Inputs(j) ==>
              NewerThan(g, f)
    ensures forall f, i, g :: f in outs && j.level + 1 < i < NUM_LEVELS && g in s.levels[i] && g !in Inputs(j) ==>
              NewerThan(f, g)
  {
    forall f, i, g | f in outs && 0 <= i < NUM_LEVELS && g in s.levels[i] && g !in Inputs(j)
      ensures i < j.level + 1 ==> NewerThan(g, f)
      ensures i > j.level + 1 ==> NewerThan(f, g)
    {
      OutAge(s, j, es, ts, outs, f, i, g);
    }
  }

  lemma {:induction false} FinishFits(s: State, j: Job, es: seq<Entry>, ts: seq<Merge.Table>, outs: seq<File>)
    requires Shaped(s) && FilesOk(s) && LevelsOk(s) && JobOk(s, j) && JobClear(s, j) && MergedInto(j, es, ts, outs)
    ensures OutsFit(s, Inputs(j), j.level + 1, outs)
  {
    forall f | f in outs
      ensures FileOk(f)
    {
      OutFile(s, j, es, ts, outs, f);
    }
    OutsApart(j, es, ts, outs);
    OutsNeighbours(s, j, es, ts, outs);
    OutsAges(s, j, es, ts, outs);
  }

  lemma {:induction false} FinishJobsFit(s: State, s': State, j: Job, es: seq<Entry>, ts: seq<Merge.Table>,
      outs: seq<File>)
    requires Shaped(s) && FilesOk(s) && IdsKnown(s) && JobsOk(s)
    requires j in s.jobs && MergedInto(j, es, ts, outs) && FreshIds(s, outs)
    requires s'.jobs == s.jobs - {j}
    ensures JobsFit(s, s'.jobs, Inputs(j), j.level + 1, outs) && FlightFits(s, s', Inputs(j), outs)
  {
    forall k, f | k in s'.jobs && f in Inputs(k)
      ensures f !in Inputs(j) && IdOf(f) in s.used
    {
      assert JobOk(s, k) && JobsApart(k, j);
    }
    forall k, f | k in s'.jobs && k.level == j.level && f in outs
      ensures Outside(f, Inputs(k))
    {
      assert JobOk(s, j) && JobsApart(j, k);
      OutFile(s, j, es, ts, outs, f);
    }
  }

  lemma {:induction false} FinishKeepsTree(s: State, s': State, j: Job, es: seq<Entry>, ts: seq<Merge.Table>,
      outs: seq<File>)
    requires Inv(s) && Finish(s, s', j, es, ts, outs)
    ensures Shaped(s') && FilesOk(s') && IdsKnown(s') && IdsUnique(s') && LevelsOk(s') && JobsOk(s') && FlagsOk(s')
  {
    var gone, m := Inputs(j), j.level + 1;
    assert JobOk(s, j) && JobClear(s, j);
    FinishReplaces(s, s', j, outs);
    FinishFits(s, j, es, ts, outs);
    FinishJobsFit(s, s', j, es, ts, outs);
    FilesKept(s, s', gone, m, outs);
    IdsKept(s, s', gone, m, outs);
    LevelsKept(s, s', gone, m, outs);
    JobsKept(s, s', gone, m, outs);
    FlagsKept(s, s', gone, m, outs);
  }

  // ----- Moving a file down -----

  lemma {:induction false} MoveFits(s: State, j: Job, f: File)
    requires Shaped(s) && FilesOk(s) && LevelsOk(s) && JobOk(s, j) && JobClear(s, j) && j.in0 == Inputs(j) == [f]
    ensures OutsFit(s, [f], j.level + 1, [f])
  {
    assert f in Inputs(j) && f in s.levels[j.level];
    forall g | g in s.levels[j.level + 1] && g !in [f]
      ensures Apart(f, g) && Apart(g, f)
    {
      OutsideIsApart(g, Inputs(j), f);
    }
    forall i, g | 0 <= i < NUM_LEVELS && g in s.levels[i] && g !in [f]
      ensures i < j.level + 1 ==> NewerThan(g, f)
      ensures i > j.level + 1 ==> NewerThan(f, g)
    {
      InputAge(s, j, f, i, g);
    }
  }

  lemma {:induction false} MoveJobsFit(s: State, s': State, j: Job)
    requires Shaped(s) && JobsOk(s) && j in s.jobs && Trivial(j)
    requires s'.jobs == s.jobs - {j}
    ensures JobsFit(s, s'.jobs, Inputs(j), j.level + 1, j.in0) && FlightFits(s, s', Inputs(j), j.in0)
  {
    assert Inputs(j) == j.in0;
    forall k, f | k in s'.jobs && f in Inputs(k)
      ensures f !in Inputs(j)
    {
      assert JobOk(s, j) && JobOk(s, k) && JobsApart(k, j);
    }
    forall k, f | k in s'.jobs && k.level == j.level && f in j.in0
      ensures Outside(f, Inputs(k))
    {
      assert JobOk(s, j) && JobsApart(j, k);
      RangeOf(Inputs(j));
    }
  }

  lemma {:induction false} MoveKeepsTree(s: State, s': State, j: Job)
    requires Inv(s) && Move(s, s', j)
    ensures Shaped(s') && FilesOk(s') && IdsKnown(s') && IdsUnique(s') && LevelsOk(s') && JobsOk(s') && FlagsOk(s')
  {
    var gone, m := Inputs(j), j.level + 1;
    assert JobOk(s, j) && JobClear(s, j);
    MoveReplaces(s, s', j);
    assert Inputs(j) == j.in0 == [j.in0[0]];
    MoveFits(s, j, j.in0[0]);
    MoveJobsFit(s, s', j);
    FilesKept(s, s', gone, m, j.in0);
    IdsKept(s, s', gone, m, j.in0);
    LevelsKept(s, s', gone, m, j.in0);
    JobsKept(s, s', gone, m, j.in0);
    FlagsKept(s, s', gone, m, j.in0);
  }

  // ----- Starting a compaction -----

  /** The levels make a version that reads can trust. */
  lemma {:induction false} VersionIsOk(s: State)
    requires Shaped(s) && FilesOk(s) && LevelsOk(s)
    ensures VersionOk(s.levels)
  {
    forall l | 0 <= l < NUM_LEVELS
      ensures l > 0 ==> LevelOk(s.levels[l])
      ensures l == 0 ==> LevelZeroOk(s.levels[l])
    {
      LevelInOrder(s, l);
    }
  }

  lemma {:induction false} LevelInOrder(s: State, l: nat)
    requires Shaped(s) && FilesOk(s) && LevelsOk(s) && l < NUM_LEVELS
    ensures l > 0 ==> LevelOk(s.levels[l])
    ensures l == 0 ==> LevelZeroOk(s.levels[l])
  {
    var v := s.levels[l];
    forall i, j | 0 <= i < |v| && 0 <= j < |v| && i != j
      ensures Neighbours(l, v[i], v[j])
      ensures l > 0 && i < j ==> Before(v[i], v[j])
    {
      assert v[i] in v && v[j] in v;
      assert FileLess(v[i], v[j]) || FileLess(v[j], v[i]);
      FileLessIsOrder(v[i], v[i], v[i]);
      assert Neighbours(l, v[i], v[j]) && FileOk(v[i]) && FileOk(v[j]);
    }
  }

  /** What a picked job takes. */
  lemma {:induction false} PickedJob(s: State, j: Job)
    requires Shaped(s) && FilesOk(s) && LevelsOk(s) && FlagsOk(s)
    requires Picks(s.levels, s.inProgress, s.under, j)
    ensures JobOk(s, j)
    ensures j.in1 == Meeting(s.levels[j.level + 1], MinKey(j.in0), MaxKey(j.in0))
    ensures forall f :: f in Inputs(j) ==> IdOf(f) !in s.under
    ensures j.level == 0 ==> j.in0 == s.levels[0] && s.inProgress[0] == []
  {
    PickedFirst(s, j);
    RangeOf(j.in0);
    var next := s.levels[j.level + 1];
    var lo, hi :| IsRange(j.in0, lo, hi) && j.in1 == Meeting(next, lo, hi) && NoneFlagged(j.in1, s.under);
    RangeIsUnique(j.in0, lo, hi, MinKey(j.in0), MaxKey(j.in0));
    MeetingElements(next, lo, hi);
  }

  lemma {:induction false} PickedFirst(s: State, j: Job)
    requires Shaped(s) && FilesOk(s) && LevelsOk(s) && FlagsOk(s)
    requires Picks(s.levels, s.inProgress, s.under, j)
    ensures j.in0 != [] && (j.level > 0 ==> |j.in0| == 1)
    ensures forall f :: f in j.in0 ==> f in s.levels[j.level] && IdOf(f) !in s.under
  {
    assert ProgressIs(s, 0);
    if j.level > 0 {
      var files := s.levels[j.level];
      var i :| 0 <= i < |files| && IdOf(files[i]) !in s.under && j.in0 == Chosen(files, i);
      LevelInOrder(s, j.level);
      ChosenIsOne(files, i);
    }
  }

  lemma {:induction false} PickedClear(s: State, j: Job)
    requires Shaped(s) && FilesOk(s) && LevelsOk(s) && JobOk(s, j)
    requires j.in1 == Meeting(s.levels[j.level + 1], MinKey(j.in0), MaxKey(j.in0))
    requires j.level == 0 ==> j.in0 == s.levels[0]
    ensures JobClear(s, j)
  {
    MeetingElements(s.levels[j.level + 1], MinKey(j.in0), MaxKey(j.in0));
    forall g | g in s.levels[j.level + 1] && g !in j.in1
      ensures Outside(g, Inputs(j))
    {
      assert FileOk(g);
      forall h | h in j.in1
        ensures Apart(g, h)
      {
        assert Neighbours(j.level + 1, g, h);
      }
      OutsideByParts(g, j.in0, j.in1);
    }
  }

  /** The file a new job starts from misses the range of a job already running on its level. */
  lemma {:induction false} NewMissesOld(s: State, j: Job, k: Job, f: File)
    requires Shaped(s) && FilesOk(s) && LevelsOk(s)
    requires JobOk(s, j) && JobOk(s, k) && j.level == k.level > 0 && j.in0 == [f]
    requires j.in1 == Meeting(s.levels[j.level + 1], f.smallest.user, f.largest.user)
    requires forall h :: h in Inputs(k) ==> h !in Inputs(j)
    ensures Outside(f, Inputs(k))
  {
    var g := k.in0[0];
    assert f in Inputs(j) && g in Inputs(k) && f in s.levels[j.level] && g in s.levels[j.level];
    assert k.in0 == [g];
    assert Neighbours(j.level, f, g) && FileOk(f) && FileOk(g);
    MeetingElements(s.levels[j.level + 1], f.smallest.user, f.largest.user);
    forall h | h in k.in1
      ensures Apart(f, h)
    {
      assert h in Inputs(k) && h in s.levels[j.level + 1];
      assert h !in j.in1;
    }
    OutsideByParts(f, k.in0, k.in1);
  }

  lemma {:induction false} NewApartFromOld(s: State, j: Job, k: Job, f: File)
    requires Shaped(s) && FilesOk(s) && LevelsOk(s)
    requires JobOk(s, j) && JobOk(s, k) && j.level == k.level > 0 && j.in0 == [f]
    requires JobClear(s, k)
    requires j.in1 == Meeting(s.levels[j.level + 1], f.smallest.user, f.largest.user)
    requires forall h :: h in Inputs(k) ==> h !in Inputs(j)
    ensures HullsApart(Inputs(j), Inputs(k))
  {
    NewMissesOld(s, j, k, f);
    MeetingElements(s.levels[j.level + 1], f.smallest.user, f.largest.user);
    RangeOf(Inputs(k));
    var g := k.in0[0];
    assert g in Inputs(k) && FileOk(g) && FileOk(f);
    forall h | h in j.in1
      ensures Outside(h, Inputs(k))
    {
      assert h in Inputs(j);
      assert h in s.levels[k.level + 1] && h !in k.in1;
    }
    HullsApartBy(f, j.in1, Inputs(k));
    assert Inputs(j) == [f] + j.in1;
  }

  lemma {:induction false} PickedApart(s: State, j: Job, k: Job)
    requires Shaped(s) && FilesOk(s) && LevelsOk(s) && FlagsOk(s)
    requires JobOk(s, j) && JobOk(s, k) && JobClear(s, k) && k in s.jobs
    requires j.in1 == Meeting(s.levels[j.level + 1], MinKey(j.in0), MaxKey(j.in0))
    requires forall f :: f in Inputs(j) ==> IdOf(f) !in s.under
    requires j.level == 0 ==> s.inProgress[0] == []
    ensures JobsApart(j, k) && JobsApart(k, j)
  {
    assert ProgressIs(s, 0);
    forall h | h in Inputs(k)
      ensures h !in Inputs(j)
      ensures k.level == 0 && h in k.in0 ==> h in s.inProgress[0]
    {
      assert InFlight(s, h);
      assert h in k.in0 ==> h in s.levels[k.level];
      assert h in k.in1 ==> h in s.levels[k.level + 1];
      assert IdOf(h) in s.under;
    }
    assert k.in0[0] in k.in0 && k.in0[0] in Inputs(k);
    if j.level == k.level {
      assert j.level > 0;
      assert j.in0 == [j.in0[0]];
      NewApartFromOld(s, j, k, j.in0[0]);
    }
  }

  lemma {:induction false} MeetingOnce(files: seq<File>, lo: UserKey, hi: UserKey)
    requires Ascending(files)
    ensures NoRepeats(Meeting(files, lo, hi))
  {
    if files != [] {
      var w, f := files[..|files| - 1], files[|files| - 1];
      MeetingOnce(w, lo, hi);
      MeetingElements(w, lo, hi);
      FileLessIsOrder(f, f, f);
      assert forall i :: 0 <= i < |w| ==> FileLess(w[i], f);
    }
  }

  /** Adding the taken files keeps a level's in_progress list exact. */
  lemma {:induction false} ProgressGrows(v: seq<File>, old_: seq<File>, taken: seq<File>, under: set<Id>,
      under': set<Id>)
    requires NoRepeats(old_) && NoRepeats(taken)
    requires forall f :: f in old_ <==> f in v && IdOf(f) in under
    requires forall f :: f in taken ==> f in v && IdOf(f) !in under
    requires forall f :: f in v ==> (IdOf(f) in under' <==> IdOf(f) in under || f in taken)
    ensures NoRepeats(old_ + taken)
    ensures forall f :: f in old_ + taken <==> f in v && IdOf(f) in under'
  {
    assert forall i :: 0 <= i < |old_| ==> old_[i] in old_;
    assert forall i :: 0 <= i < |taken| ==> taken[i] in taken;
  }

  /** A file's flag after a pick: set exactly when it was set or the file is an input. */
  lemma {:induction false} PickedFlag(s: State, j: Job, l: nat, f: File)
    requires Shaped(s) && IdsUnique(s) && JobOk(s, j) && l < NUM_LEVELS && f in s.levels[l]
    ensures IdOf(f) in s.under + IdsOf(Elements(Inputs(j))) <==> IdOf(f) in s.under || f in Inputs(j)
    ensures f in Inputs(j) <==> (l == j.level && f in j.in0) || (l == j.level + 1 && f in j.in1)
  {
    assert f in Inputs(j) ==> f in Elements(Inputs(j));
  }

  lemma {:induction false} PickedFlags(s: State, s': State, j: Job)
    requires Shaped(s) && FilesOk(s) && IdsUnique(s) && FlagsOk(s) && Pick(s, s', j) && JobOk(s, j)
    requires forall f :: f in Inputs(j) ==> IdOf(f) !in s.under
    requires NoRepeats(j.in0) && NoRepeats(j.in1)
    ensures FlagsOk(s')
  {
    forall l, f | 0 <= l < NUM_LEVELS && f in s'.levels[l]
      ensures IdOf(f) in s'.under <==> InFlight(s', f)
    {
      PickedFlag(s, j, l, f);
      InFlightAfterPick(s, s', j, f);
    }
    forall l | 0 <= l < NUM_LEVELS
      ensures ProgressIs(s', l)
    {
      PickedProgress(s, s', j, l);
    }
  }

  lemma {:induction false} InFlightAfterPick(s: State, s': State, j: Job, f: File)
    requires s'.jobs == s.jobs + {j}
    ensures InFlight(s', f) <==> InFlight(s, f) || f in Inputs(j)
  {
    if InFlight(s, f) {
      var k :| k in s.jobs && f in Inputs(k);
      assert k in s'.jobs;
    }
  }

  lemma {:induction false} PickedProgress(s: State, s': State, j: Job, l: nat)
    requires Shaped(s) && IdsUnique(s) && FlagsOk(s) && Pick(s, s', j) && JobOk(s, j) && l < NUM_LEVELS
    requires forall f :: f in Inputs(j) ==> IdOf(f) !in s.under
    requires NoRepeats(j.in0) && NoRepeats(j.in1)
    ensures ProgressIs(s', l)
  {
    var taken := TakenAt(j, l);
    PickedList(s, s', j, l);
    forall f | f in s.levels[l]
      ensures IdOf(f) in s'.under <==> IdOf(f) in s.under || f in taken
    {
      PickedFlag(s, j, l, f);
    }
    assert ProgressIs(s, l);
    ProgressGrows(s.levels[l], s.inProgress[l], taken, s.under, s'.under);
  }

  function TakenAt(j: Job, l: nat): seq<File> {
    if l == j.level then j.in0 else if l == j.level + 1 then j.in1 else []
  }

  lemma {:induction false} PickedList(s: State, s': State, j: Job, l: nat)
    requires Shaped(s) && Pick(s, s', j) && JobOk(s, j) && l < NUM_LEVELS
    requires forall f :: f in Inputs(j) ==> IdOf(f) !in s.under
    ensures s'.inProgress[l] == s.inProgress[l] + TakenAt(j, l)
    ensures forall f :: f in TakenAt(j, l) ==> f in s.levels[l] && IdOf(f) !in s.under
  {
    forall f | f in TakenAt(j, l)
      ensures f in s.levels[l] && IdOf(f) !in s.under
    {
      assert f in Inputs(j);
    }
  }

  lemma {:induction false} AscendingOnce(v: seq<File>)
    requires Ascending(v)
    ensures NoRepeats(v)
  {
    forall a, b | 0 <= a < b < |v|
      ensures v[a] != v[b]
    {
      FileLessIsOrder(v[a], v[a], v[a]);
    }
  }

  lemma {:induction false} PickedJobs(s: State, s': State, j: Job)
    requires Shaped(s) && FilesOk(s) && LevelsOk(s) && JobsOk(s) && FlagsOk(s) && Pick(s, s', j)
    ensures JobOk(s, j) && JobsOk(s')
    ensures forall f :: f in Inputs(j) ==> IdOf(f) !in s.under
    ensures NoRepeats(j.in0) && NoRepeats(j.in1)
  {
    PickedJob(s, j);
    PickedClear(s, j);
    MeetingOnce(s.levels[j.level + 1], MinKey(j.in0), MaxKey(j.in0));
    AscendingOnce(s.levels[0]);
    forall k | k in s'.jobs
      ensures JobOk(s', k) && JobClear(s', k)
    {
      assert JobOk(s, k) && JobClear(s, k);
    }
    forall k | k in s.jobs
      ensures JobsApart(j, k) && JobsApart(k, j)
    {
      PickedApart(s, j, k);
    }
  }

  lemma {:induction false} PickKeepsTree(s: State, s': State, j: Job)
    requires Inv(s) && Pick(s, s', j)
    ensures Shaped(s') && FilesOk(s') && IdsKnown(s') && IdsUnique(s') && LevelsOk(s') && JobsOk(s') && FlagsOk(s')
  {
    PickedJobs(s, s', j);
    PickedFlags(s, s', j);
    assert IdsKnown(s') by {
      forall f | f in Inputs(j)
        ensures IdOf(f) in s.used
      {
        assert f in s.levels[j.level] || f in s.levels[j.level + 1];
      }
    }
  }

  // ----- The memtables -----

  lemma {:induction false} MemsKept(s: State, s': State, gone: seq<File>, m: nat, outs: seq<File>)
    requires Shaped(s) && MemsOk(s) && Replaced(s, s', gone, m, outs)
    requires |s'.mems| <= |s.mems| && s'.mems == s.mems[..|s'.mems|]
    requires forall f, d :: f in outs && d in f.entries ==> d.key.seqno < Oldest(s').first
    ensures MemsOk(s')
  {
    assert forall t :: t in s'.mems ==> t in s.mems;
    OldestIsLower(s, s');
    forall l, f, d | 0 <= l < NUM_LEVELS && f in s'.levels[l] && d in f.entries
      ensures d.key.seqno < Oldest(s').first
    {
      assert LevelIs(s, s', l, gone, m, outs);
    }
  }

  lemma {:induction false} OldestIsLower(s: State, s': State)
    requires Shaped(s) && MemsOk(s) && 0 < |s'.mems| <= |s.mems| && s'.mems == s.mems[..|s'.mems|]
    ensures Oldest(s).first <= Oldest(s').first
  {
    assert Oldest(s) in s.mems;
  }

  lemma {:induction false} FlushKeepsMems(s: State, s': State, f: File)
    requires Shaped(s) && MemsOk(s) && Replaced(s, s', [], 0, [f]) && |s.mems| > 1
    requires s'.mems == s.mems[..|s.mems| - 1] && FlushOf(Oldest(s).entries, f)
    ensures MemsOk(s')
  {
    assert Oldest(s) in s.mems && s.mems[|s.mems| - 2] == Oldest(s');
    FlushedFile(Oldest(s).entries, f);
    MemsKept(s, s', [], 0, [f]);
  }

  lemma {:induction false} FinishKeepsMems(s: State, s': State, j: Job, es: seq<Entry>, ts: seq<Merge.Table>,
      outs: seq<File>)
    requires Shaped(s) && MemsOk(s) && JobOk(s, j) && Replaced(s, s', Inputs(j), j.level + 1, outs)
    requires MergedInto(j, es, ts, outs) && s'.mems == s.mems
    ensures MemsOk(s')
  {
    forall f, d | f in outs && d in f.entries
      ensures d.key.seqno < Oldest(s').first
    {
      OutComesFromInputs(j, es, ts, outs, f, d);
      var h :| h in Inputs(j) && d in h.entries;
      assert h in s.levels[j.level] || h in s.levels[j.level + 1];
    }
    MemsKept(s, s', Inputs(j), j.level + 1, outs);
  }

  lemma {:induction false} MoveKeepsMems(s: State, s': State, j: Job)
    requires Shaped(s) && MemsOk(s) && JobOk(s, j) && Replaced(s, s', Inputs(j), j.level + 1, j.in0)
    requires s'.mems == s.mems
    ensures MemsOk(s')
  {
    MemsKept(s, s', Inputs(j), j.level + 1, j.in0);
  }

  lemma {:induction false} SealKeepsMems(s: State, s': State, limit: nat)
    requires Shaped(s) && MemsOk(s) && Seal(s, s', limit)
    ensures MemsOk(s')
  {
    assert Active(s) in s.mems;
    forall a, b | 0 <= a < b < |s'.mems|
      ensures s'.mems[b].limit <= s'.mems[a].first
    {
      assert s'.mems[b] == s.mems[b - 1] && s.mems[b - 1] in s.mems;
      assert a > 0 ==> s'.mems[a] == s.mems[a - 1];
      assert a == 0 && b > 1 ==> s.mems[b - 1].limit <= s.mems[0].first;
    }
  }

  lemma {:induction false} InsertKeepsMems(s: State, s': State, i: nat, e: Entry, es: seq<Entry>)
    requires Shaped(s) && MemsOk(s) && Insert(s, s', i, e, es)
    ensures MemsOk(s')
  {
    assert s.mems[i] in s.mems;
    assert forall d :: d in es ==> d in Entries(es);
    assert forall d :: d in s.mems[i].entries <==> d in Entries(s.mems[i].entries);
    assert MemOk(s'.mems[i]);
    forall m | m in s'.mems
      ensures MemOk(m)
    {
      var a :| 0 <= a < |s'.mems| && s'.mems[a] == m;
      assert a != i ==> m == s.mems[a] && s.mems[a] in s.mems;
    }
  }

  // ----- The history -----

  lemma {:induction false} InAll(levels: seq<seq<File>>, e: Entry)
    ensures e in AllEntries(levels) <==> exists l, f :: 0 <= l < |levels| && f in levels[l] && e in f.entries
  {
    if e in AllEntries(levels) {
      var v, f :| v in levels && f in v && e in f.entries;
      var l :| 0 <= l < |levels| && levels[l] == v;
      assert f in levels[l];
    }
    forall l, f | 0 <= l < |levels| && f in levels[l] && e in f.entries
      ensures e in AllEntries(levels)
    {
      assert levels[l] in levels;
    }
  }

  /** The entries of the files that stay. */
  ghost function Rest(s: State, gone: seq<File>): set<Entry>
    requires Shaped(s)
  {
    set v, f, e | v in s.levels && f in v && f !in gone && e in f.entries :: e
  }

  /** What is stored splits into what leaves and what stays. */
  lemma {:induction false} StoredBefore(s: State, gone: seq<File>)
    requires Shaped(s)
    requires forall f :: f in gone ==> exists l :: 0 <= l < NUM_LEVELS && f in s.levels[l]
    ensures AllEntries(s.levels) == Rest(s, gone) + FileEntries(gone)
  {
    forall f, e | f in gone && e in f.entries
      ensures e in AllEntries(s.levels)
    {
      var l :| 0 <= l < NUM_LEVELS && f in s.levels[l];
      assert s.levels[l] in s.levels;
    }
  }

  lemma {:induction false} StoredAfter(s: State, s': State, gone: seq<File>, m: nat, outs: seq<File>)
    requires Shaped(s) && m < NUM_LEVELS && Replaced(s, s', gone, m, outs)
    ensures AllEntries(s'.levels) == Rest(s, gone) + FileEntries(outs)
  {
    forall e
      ensures e in AllEntries(s'.levels) ==> e in Rest(s, gone) + FileEntries(outs)
    {
      InAll(s'.levels, e);
      if e in AllEntries(s'.levels) {
        var l, f :| 0 <= l < NUM_LEVELS && f in s'.levels[l] && e in f.entries;
        assert LevelIs(s, s', l, gone, m, outs);
        assert s.levels[l] in s.levels;
      }
    }
    forall v, f, e | v in s.levels && f in v && f !in gone && e in f.entries
      ensures e in AllEntries(s'.levels)
    {
      var l :| 0 <= l < NUM_LEVELS && s.levels[l] == v;
      assert LevelIs(s, s', l, gone, m, outs);
      assert s'.levels[l] in s'.levels;
    }
    forall f, e | f in outs && e in f.entries
      ensures e in AllEntries(s'.levels)
    {
      assert LevelIs(s, s', m, gone, m, outs);
      assert s'.levels[m] in s'.levels;
    }
  }

  /** Swapping a part of what is stored for one that reads alike keeps the history. */
  lemma {:induction false} HistoryKept(s: State, s': State, old_: set<Entry>, new_: set<Entry>, rest: set<Entry>)
    requires Shaped(s) && Shaped(s') && HistoryOk(s) && s'.written == s.written
    requires Active(s') == Active(s) && forall m :: m in s'.mems ==> m in s.mems
    requires Stored(s) == old_ + rest && Stored(s') == new_ + rest && new_ <= old_
    requires SameReads(old_, new_, Active(s).limit)
    ensures HistoryOk(s')
  {
    assert old_ <= s.written;
    assert Proper(old_);
    ReplacePart(old_, new_, rest, Active(s).limit);
    assert SameReads(s.written, Stored(s'), Active(s).limit);
  }

  /** A merge of entries below the read's sequence number reads like its input. */
  lemma {:induction false} MergeReadsAlike(es: seq<Entry>, s: nat)
    requires Sorted(es) && forall e :: e in es ==> e.key.seqno <= s
    ensures SameReads(Entries(es), Entries(Merge.Survivors(es, None, |es|)), s)
    ensures Entries(Merge.Survivors(es, None, |es|)) <= Entries(es)
  {
    forall k, r
      ensures Reads(Entries(es), k, s, r) <==> Reads(Entries(Merge.Survivors(es, None, |es|)), k, s, r)
    {
      Merge.MergePreservesReads(es, None, k, s, r);
    }
    Merge.SurvivorsAreKept(es, None, |es|);
  }

  lemma {:induction false} FlushStores(s: State, s': State, f: File)
    requires Shaped(s) && Replaced(s, s', [], 0, [f])
    ensures AllEntries(s'.levels) == AllEntries(s.levels) + Entries(f.entries)
  {
    StoredBefore(s, []);
    StoredAfter(s, s', [], 0, [f]);
    assert FileEntries([f]) == Entries(f.entries) && FileEntries([]) == {};
  }

  lemma {:induction false} MemsSplit(s: State, s': State)
    requires s.mems != [] && s'.mems == s.mems[..|s.mems| - 1]
    ensures MemEntries(s) == MemEntries(s') + Entries(Oldest(s).entries)
  {
    assert s.mems == s'.mems + [Oldest(s)];
  }

  lemma {:induction false} FlushKeepsHistory(s: State, s': State, f: File)
    requires Shaped(s) && Shaped(s') && HistoryOk(s) && s'.written == s.written
    requires AllEntries(s'.levels) == AllEntries(s.levels) + Entries(f.entries)
    requires |s.mems| > 1 && FlushOf(Oldest(s).entries, f) && s'.mems == s.mems[..|s.mems| - 1]
    ensures HistoryOk(s')
  {
    var last := Oldest(s).entries;
    var rest := MemEntries(s') + AllEntries(s.levels);
    MemsSplit(s, s');
    assert Stored(s) == Entries(last) + rest;
    assert forall e :: e in last ==> e in Entries(last);
    MergeReadsAlike(last, Active(s).limit);
    assert Stored(s') == Entries(f.entries) + rest;
    HistoryKept(s, s', Entries(last), Entries(f.entries), rest);
  }

  lemma {:induction false} ConcatElements(ts: seq<Merge.Table>, e: Entry)
    ensures e in Merge.Concat(ts) <==> exists i :: 0 <= i < |ts| && e in ts[i].entries
  {
    if ts != [] {
      var w := ts[..|ts| - 1];
      ConcatElements(w, e);
      if e in Merge.Concat(w) {
        var i :| 0 <= i < |w| && e in w[i].entries;
        assert e in ts[i].entries;
      }
      forall i | 0 <= i < |ts| && e in ts[i].entries
        ensures e in Merge.Concat(ts)
      {
        assert i < |w| ==> e in w[i].entries;
      }
    }
  }

  lemma {:induction false} OutEntries(j: Job, es: seq<Entry>, ts: seq<Merge.Table>, outs: seq<File>)
    requires MergedInto(j, es, ts, outs)
    ensures FileEntries(outs) == Entries(Merge.Survivors(es, None, |es|))
  {
    forall e
      ensures e in FileEntries(outs) <==> e in Merge.Concat(ts)
    {
      ConcatElements(ts, e);
      if e in FileEntries(outs) {
        var f :| f in outs && e in f.entries;
        var i :| 0 <= i < |outs| && outs[i] == f;
        assert e in ts[i].entries;
      }
      if e in Merge.Concat(ts) {
        var i :| 0 <= i < |ts| && e in ts[i].entries;
        assert outs[i] in outs && e in outs[i].entries;
      }
    }
  }

  lemma {:induction false} InputsAreStored(s: State, j: Job)
    requires Shaped(s) && JobOk(s, j)
    ensures AllEntries(s.levels) == Rest(s, Inputs(j)) + FileEntries(Inputs(j))
  {
    forall f | f in Inputs(j)
      ensures exists l :: 0 <= l < NUM_LEVELS && f in s.levels[l]
    {
      var l := if f in j.in0 then j.level else j.level + 1;
      assert f in s.levels[l];
    }
    StoredBefore(s, Inputs(j));
  }

  lemma {:induction false} FinishKeepsHistory(s: State, s': State, j: Job, es: seq<Entry>, ts: seq<Merge.Table>,
      outs: seq<File>)
    requires Shaped(s) && JobOk(s, j) && HistoryOk(s) && MergedInto(j, es, ts, outs)
    requires Replaced(s, s', Inputs(j), j.level + 1, outs) && s'.mems == s.mems && s'.written == s.written
    ensures HistoryOk(s')
  {
    var rest := MemEntries(s) + Rest(s, Inputs(j));
    InputsAreStored(s, j);
    StoredAfter(s, s', Inputs(j), j.level + 1, outs);
    OutEntries(j, es, ts, outs);
    assert Stored(s) == Entries(es) + rest;
    assert forall e :: e in es ==> e in Entries(es);
    MergeReadsAlike(es, Active(s).limit);
    HistoryKept(s, s', Entries(es), FileEntries(outs), rest);
  }

  lemma {:induction false} MoveKeepsHistory(s: State, s': State, j: Job)
    requires Shaped(s) && JobOk(s, j) && HistoryOk(s) && Trivial(j)
    requires Replaced(s, s', Inputs(j), j.level + 1, j.in0) && s'.mems == s.mems && s'.written == s.written
    ensures HistoryOk(s')
  {
    InputsAreStored(s, j);
    StoredAfter(s, s', Inputs(j), j.level + 1, j.in0);
    assert Inputs(j) == j.in0;
    assert Stored(s) == Stored(s');
  }

  lemma {:induction false} SealKeepsHistory(s: State, s': State, limit: nat)
    requires Shaped(s) && MemsOk(s) && HistoryOk(s) && Seal(s, s', limit)
    ensures HistoryOk(s')
  {
    forall m, e | m in s'.mems && e in s'.written && Meant(m, e.key.seqno)
      ensures e in m.entries
    {
      assert m == s'.mems[0] || m in s.mems;
    }
    SameEntries(s, s');
    forall k, r
      ensures Reads(s.written, k, limit, r) <==> Reads(Stored(s), k, limit, r)
    {
      LatestReads(s.written, Active(s).limit, limit, k, r);
      LatestReads(Stored(s), Active(s).limit, limit, k, r);
    }
  }

  lemma {:induction false} SameEntries(s: State, s': State)
    requires s.mems != [] && s'.levels == s.levels
    requires |s'.mems| == |s.mems| + 1 && s'.mems[0].entries == [] && s'.mems[1..] == s.mems
    ensures Stored(s') == Stored(s)
  {
    assert s'.mems == [s'.mems[0]] + s.mems;
  }

  lemma {:induction false} InsertStores(s: State, s': State, i: nat, e: Entry, es: seq<Entry>)
    requires Insert(s, s', i, e, es)
    ensures Stored(s') == Stored(s) + {e}
  {
    forall d
      ensures d in MemEntries(s') <==> d in MemEntries(s) || d == e
    {
      assert d in es <==> d in Entries(es);
      assert d in s.mems[i].entries <==> d in Entries(s.mems[i].entries);
      if d in MemEntries(s') {
        var a :| 0 <= a < |s'.mems| && d in s'.mems[a].entries;
        assert a != i ==> s.mems[a] in s.mems;
        assert s.mems[i] in s.mems;
      }
      if d in MemEntries(s) {
        var a :| 0 <= a < |s.mems| && d in s.mems[a].entries;
        assert s'.mems[a] in s'.mems;
      }
      assert s'.mems[i] in s'.mems;
    }
  }

  lemma {:induction false} InsertIsNew(s: State, s': State, i: nat, e: Entry, es: seq<Entry>)
    requires Shaped(s) && HistoryOk(s) && Insert(s, s', i, e, es)
    ensures Proper(s'.written)
  {
    assert e in Entries(es) && e in es;
    forall d | d in s.written
      ensures d.key != e.key
    {
      assert s.mems[i] in s.mems;
    }
  }

  lemma {:induction false} InsertIsPlaced(s: State, s': State, i: nat, e: Entry, es: seq<Entry>, m: Mem, d: Entry)
    requires Shaped(s) && MemsOk(s) && HistoryOk(s) && Insert(s, s', i, e, es)
    requires m in s'.mems && d in s'.written && Meant(m, d.key.seqno)
    ensures d in m.entries
  {
    var a :| 0 <= a < |s'.mems| && s'.mems[a] == m;
    assert s.mems[a] in s.mems && s.mems[i] in s.mems;
    assert d in es <==> d in Entries(es);
    if a < i {
      assert s.mems[i].limit <= s.mems[a].first;
    } else if i < a {
      assert s.mems[a].limit <= s.mems[i].first;
    } else if d != e {
      assert d in Entries(s.mems[i].entries);
    }
  }

  lemma {:induction false} InsertKeepsHistory(s: State, s': State, i: nat, e: Entry, es: seq<Entry>)
    requires Shaped(s) && MemsOk(s) && HistoryOk(s) && Insert(s, s', i, e, es)
    ensures HistoryOk(s')
  {
    InsertStores(s, s', i, e, es);
    InsertIsNew(s, s', i, e, es);
    forall m, d | m in s'.mems && d in s'.written && Meant(m, d.key.seqno)
      ensures d in m.entries
    {
      InsertIsPlaced(s, s', i, e, es, m, d);
    }
    BelowLimit(s, i, e.key.seqno);
    assert Active(s').limit == Active(s).limit;
    ReplacePart(s.written, Stored(s), {e}, Active(s).limit);
  }

  lemma {:induction false} BelowLimit(s: State, i: nat, n: nat)
    requires Shaped(s) && MemsOk(s) && i < |s.mems| && Meant(s.mems[i], n)
    ensures n < Active(s).limit
  {
    assert s.mems[0] in s.mems;
    assert i > 0 ==> s.mems[i].limit <= s.mems[0].first;
  }

  /** No writer has anything left to insert into a memtable that may be flushed. */
  lemma {:induction false} FullTakesNoMore(s: State, s': State, i: nat, e: Entry, es: seq<Entry>)
    requires i < |s.mems| && Full(s.mems[i])
    ensures !Insert(s, s', i, e, es)
  {
  }

  // ----- Every run -----

  lemma {:induction false} SealKeepsInv(s: State, s': State, limit: nat)
    requires Inv(s) && Seal(s, s', limit)
    ensures Inv(s')
  {
    SealKeepsMems(s, s', limit);
    SealKeepsHistory(s, s', limit);
    SameTree(s, s');
  }

  lemma {:induction false} InsertKeepsInv(s: State, s': State, i: nat, e: Entry, es: seq<Entry>)
    requires Inv(s) && Insert(s, s', i, e, es)
    ensures Inv(s')
  {
    InsertKeepsMems(s, s', i, e, es);
    InsertKeepsHistory(s, s', i, e, es);
    SameTree(s, s');
  }

  /** The tree's invariants look only at the levels, the flags and the jobs. */
  lemma {:induction false} SameTree(s: State, s': State)
    requires Shaped(s) && FilesOk(s) && IdsKnown(s) && IdsUnique(s) && LevelsOk(s) && JobsOk(s) && FlagsOk(s)
    requires s'.levels == s.levels && s'.inProgress == s.inProgress && s'.under == s.under && s'.used == s.used
    requires s'.jobs == s.jobs && s'.mems != []
    ensures Shaped(s') && FilesOk(s') && IdsKnown(s') && IdsUnique(s') && LevelsOk(s') && JobsOk(s') && FlagsOk(s')
  {
    forall j | j in s'.jobs
      ensures JobOk(s', j) && JobClear(s', j)
    {
      assert JobOk(s, j) && JobClear(s, j);
    }
    forall l | 0 <= l < NUM_LEVELS
      ensures ProgressIs(s', l)
    {
      assert ProgressIs(s, l);
    }
    assert forall f :: InFlight(s, f) <==> InFlight(s', f);
  }

  lemma {:induction false} FlushKeepsInv(s: State, s': State, f: File)
    requires Inv(s) && Flush(s, s', f)
    ensures Inv(s')
  {
    FlushKeepsTree(s, s', f);
    FlushReplaces(s, s', f);
    FlushKeepsMems(s, s', f);
    FlushStores(s, s', f);
    FlushKeepsHistory(s, s', f);
  }

  lemma {:induction false} PickKeepsInv(s: State, s': State, j: Job)
    requires Inv(s) && Pick(s, s', j)
    ensures Inv(s')
  {
    PickKeepsTree(s, s', j);
    SameStore(s, s');
  }

  lemma {:induction false} SameStore(s: State, s': State)
    requires Shaped(s) && MemsOk(s) && HistoryOk(s)
    requires Shaped(s') && s'.mems == s.mems && s'.levels == s.levels && s'.written == s.written
    ensures MemsOk(s') && HistoryOk(s')
  {
    assert Stored(s') == Stored(s);
  }

  lemma {:induction false} FinishKeepsInv(s: State, s': State, j: Job, es: seq<Entry>, ts: seq<Merge.Table>,
      outs: seq<File>)
    requires Inv(s) && Finish(s, s', j, es, ts, outs)
    ensures Inv(s')
  {
    FinishKeepsTree(s, s', j, es, ts, outs);
    assert JobOk(s, j);
    FinishReplaces(s, s', j, outs);
    FinishKeepsMems(s, s', j, es, ts, outs);
    FinishKeepsHistory(s, s', j, es, ts, outs);
  }

  lemma {:induction false} MoveKeepsInv(s: State, s': State, j: Job)
    requires Inv(s) && Move(s, s', j)
    ensures Inv(s')
  {
    MoveKeepsTree(s, s', j);
    assert JobOk(s, j);
    MoveReplaces(s, s', j);
    MoveKeepsMems(s, s', j);
    MoveKeepsHistory(s, s', j);
  }

  lemma {:induction false} StepKeepsInv(s: State, s': State)
    requires Inv(s) && Step(s, s')
    ensures Inv(s')
  {
    if limit :| Seal(s, s', limit) {
      SealKeepsInv(s, s', limit);
    } else if i, e, es :| Insert(s, s', i, e, es) {
      InsertKeepsInv(s, s', i, e, es);
    } else if f :| Flush(s, s', f) {
      FlushKeepsInv(s, s', f);
    } else if j :| Pick(s, s', j) {
      PickKeepsInv(s, s', j);
    } else if j, es, ts, outs :| Finish(s, s', j, es, ts, outs) {
      FinishKeepsInv(s, s', j, es, ts, outs);
    } else {
      var j :| Move(s, s', j);
      MoveKeepsInv(s, s', j);
    }
  }

  lemma {:induction false} InitHasInv(s: State)
    requires Init(s)
    ensures Inv(s)
  {
    assert AllEntries(s.levels) == {} by {
      forall e
        ensures e !in AllEntries(s.levels)
      {
        InAll(s.levels, e);
      }
    }
    assert MemEntries(s) == {};
  }

  /** Any number of insertions, flushes, compactions and moves, in any order and interleaved at will, keep
      the store sound: the version is one reads can trust, the compactions in flight stay apart, and the
      tree reads like everything ever written. */
  lemma {:induction false} RunKeepsInv(tr: seq<State>, i: nat)
    requires Run(tr) && i < |tr|
    ensures Inv(tr[i]) && VersionOk(tr[i].levels)
  {
    if i == 0 {
      InitHasInv(tr[0]);
    } else {
      RunKeepsInv(tr, i - 1);
      assert Step(tr[i - 1], tr[i]);
      StepKeepsInv(tr[i - 1], tr[i]);
    }
    VersionIsOk(tr[i]);
  }

  // ----- Installing an edit with a builder -----

  /** A builder on the current version can take the edit. */
  ghost predicate Installable(s: State, e: Edit)
    requires Shaped(s)
  {
    && EditOk(e)
    && forall l :: 0 <= l < NUM_LEVELS ==>
         Fresh(s.levels[l], DeletedAfter({}, e, l), AddedAt(e, l)) && Distinguished(AddedAt(e, l))
  }

  /** VersionSet::LogAndApply: a builder on the current version, the edit, and the version it saves. */
  method LogAndApply(s: State, e: Edit) returns (s': State)
    requires Shaped(s) && FilesOk(s) && Installable(s, e)
    ensures Applied(s, s', e)
    ensures s'.mems == s.mems && s'.jobs == s.jobs && s'.written == s.written
  {
    var b := new Builder(s.levels);
    forall l | 0 <= l < NUM_LEVELS
      ensures Elements(b.added[l]) + AddedAt(e, l) == AddedAt(e, l)
    {
    }
    b.Apply(e);
    var levels, inProgress, under := b.SaveTo(s.under);
    assert forall l :: 0 <= l < NUM_LEVELS ==> Saved(s.levels[l], AddedAt(e, l), DeletedAfter({}, e, l), levels[l]);
    for n := 0 to NUM_LEVELS
      invariant forall k :: 0 <= k <= n ==> AddedIds(b.added, k) == AddedBelow(e, k)
    {
      assert Elements(b.added[n]) == AddedAt(e, n);
    }
    s' := s.(levels := levels, inProgress := inProgress, under := under, used := s.used + AddedBelow(e, NUM_LEVELS));
  }

  lemma {:induction false} NeighboursDiffer(l: nat, f: File, g: File)
    requires Neighbours(l, f, g) && f.smallest.user <= f.largest.user && g.smallest.user <= g.largest.user
    ensures FileLess(f, g) || FileLess(g, f)
  {
  }

  /** An edit whose new files fit among those that stay can be installed. */
  lemma {:induction false} FittingIsInstallable(s: State, e: Edit, gone: seq<File>, m: nat, outs: seq<File>)
    requires Shaped(s) && FilesOk(s) && EditOk(e) && m < NUM_LEVELS
    requires Adds(e, m, outs) && Deletes(s, e, gone, m, outs) && OutsFit(s, gone, m, outs)
    ensures Installable(s, e)
  {
    assert forall f :: f in outs <==> f in Elements(outs);
    forall l | 0 <= l < NUM_LEVELS
      ensures Fresh(s.levels[l], DeletedAfter({}, e, l), AddedAt(e, l)) && Distinguished(AddedAt(e, l))
    {
      NothingReadded(s, e, gone, m, outs, l);
      if l == m {
        forall f, g | f in s.levels[m] && g in outs && IdOf(f) !in DeletedAt(e, m)
          ensures FileLess(f, g) || FileLess(g, f)
        {
          assert f !in gone && FileOk(f) && FileOk(g);
          NeighboursDiffer(m, f, g);
        }
        forall f, g | f in outs && g in outs && f != g
          ensures FileLess(f, g) || FileLess(g, f)
        {
          NeighboursDiffer(m, f, g);
        }
      }
    }
  }

  /** In every state of every run a builder can take the edit of a flush that may be installed. */
  lemma {:induction false} FlushIsInstallable(s: State, f: File)
    requires Inv(s) && FlushOf(Oldest(s).entries, f) && forall g :: g in s.levels[0] ==> g.number < f.number
    ensures Installable(s, FlushEdit(f))
  {
    FlushFits(s, f);
    FlushAdds(f);
    FittingIsInstallable(s, FlushEdit(f), [], 0, [f]);
  }

  /** The same for the edit of a compaction that has finished, whatever else was installed since it was
      picked. */
  lemma {:induction false} FinishIsInstallable(s: State, j: Job, es: seq<Entry>, ts: seq<Merge.Table>,
      outs: seq<File>)
    requires Inv(s) && j in s.jobs && MergedInto(j, es, ts, outs) && FreshIds(s, outs)
    ensures Installable(s, CompactionEdit(j, outs))
  {
    assert JobOk(s, j) && JobClear(s, j);
    FinishFits(s, j, es, ts, outs);
    FittingFinish(s, j, outs);
  }

  lemma {:induction false} FittingFinish(s: State, j: Job, outs: seq<File>)
    requires Shaped(s) && FilesOk(s) && IdsKnown(s) && IdsUnique(s) && JobOk(s, j) && FreshIds(s, outs)
    requires OutsFit(s, Inputs(j), j.level + 1, outs)
    ensures Installable(s, CompactionEdit(j, outs))
  {
    CompactionAdds(j, outs);
    CompactionDeletes(s, j, outs);
    CompactionEditOk(j, outs);
    FittingIsInstallable(s, CompactionEdit(j, outs), Inputs(j), j.level + 1, outs);
  }

  lemma {:induction false} CompactionEditOk(j: Job, outs: seq<File>)
    requires j.level + 1 < NUM_LEVELS
    ensures EditOk(CompactionEdit(j, outs))
  {
  }

  /** The same for the edit of a trivial move. */
  lemma {:induction false} MoveIsInstallable(s: State, j: Job)
    requires Inv(s) && j in s.jobs && Trivial(j)
    ensures Installable(s, MoveEditOf(j))
  {
    var f := j.in0[0];
    assert JobOk(s, j) && JobClear(s, j) && f in s.levels[j.level] && Inputs(j) == [f];
    MoveFits(s, j, f);
    FittingMove(s, j, f);
  }

  lemma {:induction false} FittingMove(s: State, j: Job, f: File)
    requires Shaped(s) && FilesOk(s) && IdsUnique(s) && j.level + 1 < NUM_LEVELS && j.in0 == [f] && j.in1 == []
    requires f in s.levels[j.level] && OutsFit(s, [f], j.level + 1, [f])
    ensures Installable(s, MoveEditOf(j))
  {
    MoveEdit(s, j, f);
    FittingIsInstallable(s, MoveEditOf(j), [f], j.level + 1, [f]);
  }

  // ----- Scores -----

  function TotalSize(fs: seq<File>): nat {
    if fs == [] then 0 else TotalSize(fs[..|fs| - 1]) + fs[|fs| - 1].size
  }

  lemma {:induction false} SizeWithout(fs: seq<File>, i: nat)
    requires i < |fs|
    ensures TotalSize(fs) == TotalSize(fs[..i] + fs[i + 1..]) + fs[i].size
  {
    var n := |fs| - 1;
    var less := fs[..i] + fs[i + 1..];
    if i < n {
      var front, rest := fs[..n], fs[..i] + fs[i + 1..n];
      SizeWithout(front, i);
      assert front[..i] == fs[..i] && front[i + 1..] == fs[i + 1..n];
      assert less == rest + [fs[n]];
      SizeOfMore(rest, fs[n]);
    } else {
      assert less == fs[..n];
    }
  }

  lemma {:induction false} SizeOfMore(fs: seq<File>, f: File)
    ensures TotalSize(fs + [f]) == TotalSize(fs) + f.size
  {
    assert (fs + [f])[..|fs|] == fs;
  }

  lemma {:induction false} PartFits(part: seq<File>, whole: seq<File>)
    requires NoRepeats(part) && forall f :: f in part ==> f in whole
    ensures |part| <= |whole| && TotalSize(part) <= TotalSize(whole)
    decreases |part|
  {
    if part != [] {
      var rest, f := part[..|part| - 1], part[|part| - 1];
      assert f in part;
      var i :| 0 <= i < |whole| && whole[i] == f;
      var less := whole[..i] + whole[i + 1..];
      forall g | g in rest
        ensures g in less
      {
        assert g in part && g != f;
        var j :| 0 <= j < |whole| && whole[j] == g;
        assert g == if j < i then less[j] else less[j - 1];
      }
      PartFits(rest, less);
      SizeWithout(whole, i);
    }
  }

  /** Finalize subtracts the files under compaction from those of the level, in number on level 0 and in
      bytes elsewhere; neither difference is ever negative. */
  lemma {:induction false} ScoresNeverUnderflow(tr: seq<State>, i: nat, l: nat)
    requires Run(tr) && i < |tr| && l < NUM_LEVELS
    ensures var s := tr[i];
            Shaped(s) && |s.inProgress[l]| <= |s.levels[l]| && TotalSize(s.inProgress[l]) <= TotalSize(s.levels[l])
  {
    RunKeepsInv(tr, i);
    assert ProgressIs(tr[i], l);
    PartFits(tr[i].inProgress[l], tr[i].levels[l]);
  }

  // ----- Reading the whole store -----

  /** A hit in newer entries is the answer for newer and older entries together. */
  lemma {:induction false} NewerHitWins(young: set<Entry>, older: set<Entry>, k: UserKey, s: nat, r: Option<Entry>)
    requires Proper(young + older)
    requires forall a, b :: a in young && b in older ==> a.key.seqno > b.key.seqno
    ensures r.Some? && Reads(young, k, s, r) ==> Reads(young + older, k, s, r)
    ensures Reads(young, k, s, None) && Reads(older, k, s, r) ==> Reads(young + older, k, s, r)
  {
    if r.Some? && Reads(young, k, s, r) {
      forall e | e in older && VisibleAt(e, k, s)
        ensures Less(r.value.key, e.key)
      {
        NewerComesFirst(r.value.key, e.key);
      }
    }
  }

  /** The entries of the memtables from `i` on. */
  ghost function MemFrom(s: State, i: nat): set<Entry> {
    set j, e | i <= j < |s.mems| && e in s.mems[j].entries :: e
  }

  /** What a read finds from memtable `i` on. */
  ghost function From(s: State, i: nat): set<Entry> {
    MemFrom(s, i) + AllEntries(s.levels)
  }

  lemma {:induction false} ReadMem(s: State, i: nat, k: UserKey, n: nat, q: Option<Entry>, r: Option<Entry>)
    requires Shaped(s) && MemsOk(s) && Proper(Stored(s)) && i < |s.mems|
    requires Reads(Entries(s.mems[i].entries), k, n, q)
    requires if q.Some? then r == q else Reads(From(s, i + 1), k, n, r)
    ensures Reads(From(s, i), k, n, r)
  {
    var young, older := Entries(s.mems[i].entries), From(s, i + 1);
    FromSplits(s, i);
    forall a, b | a in young && b in older
      ensures a.key.seqno > b.key.seqno
    {
      OlderThanMem(s, i, a, b);
    }
    NewerHitWins(young, older, k, n, r);
  }

  lemma {:induction false} FromSplits(s: State, i: nat)
    requires i < |s.mems|
    ensures Entries(s.mems[i].entries) + From(s, i + 1) == From(s, i) && From(s, i) <= Stored(s)
  {
    assert MemFrom(s, i) == Entries(s.mems[i].entries) + MemFrom(s, i + 1);
    assert forall j :: i <= j < |s.mems| ==> s.mems[j] in s.mems;
  }

  lemma {:induction false} OlderThanMem(s: State, i: nat, a: Entry, b: Entry)
    requires Shaped(s) && MemsOk(s) && i < |s.mems| && a in s.mems[i].entries && b in From(s, i + 1)
    ensures a.key.seqno > b.key.seqno
  {
    assert s.mems[i] in s.mems && Oldest(s) in s.mems;
    if b in MemFrom(s, i + 1) {
      var j :| i + 1 <= j < |s.mems| && b in s.mems[j].entries;
      assert s.mems[j] in s.mems;
    } else {
      InAll(s.levels, b);
      assert i < |s.mems| - 1 ==> Oldest(s).limit <= s.mems[i].first;
    }
  }

  /** An answer for the memtables from `i` on is the answer for all of them. */
  ghost predicate Suffices(s: State, k: UserKey, n: nat, i: nat) {
    forall r :: Reads(From(s, i), k, n, r) ==> Reads(From(s, 0), k, n, r)
  }

  lemma {:induction false} AllFrom(s: State)
    ensures From(s, 0) == Stored(s)
  {
    assert MemFrom(s, 0) == MemEntries(s);
  }

  /** The memtables newest first, then the version: the newest visible entry of all that is stored,
      however far the memtables have been filled. */
  method GetStored(s: State, k: UserKey, n: nat) returns (r: Option<Entry>)
    requires Inv(s)
    ensures Reads(Stored(s), k, n, r)
  {
    AllFrom(s);
    for i := 0 to |s.mems|
      invariant Suffices(s, k, n, i)
    {
      assert s.mems[i] in s.mems;
      r := SeekGet(s.mems[i].entries, k, n);
      if r.Some? {
        ReadMem(s, i, k, n, r, r);
        return;
      }
      forall q | Reads(From(s, i + 1), k, n, q)
        ensures Reads(From(s, i), k, n, q)
      {
        ReadMem(s, i, k, n, None, q);
      }
    }
    VersionIsOk(s);
    r := Get(s.levels, k, n);
    assert From(s, |s.mems|) == AllEntries(s.levels);
  }

  /** DBImpl::Get: the active memtable, the immutable ones, the version.  At any sequence number not
      below those inserted the answer is that of everything ever written. */
  method StoreGet(s: State, k: UserKey, n: nat) returns (r: Option<Entry>)
    requires Inv(s) && forall e :: e in s.written ==> e.key.seqno <= n
    ensures Reads(s.written, k, n, r)
  {
    r := GetStored(s, k, n);
    LatestReads(Stored(s), Active(s).limit, n, k, r);
    LatestReads(s.written, Active(s).limit, n, k, r);
  }
}
