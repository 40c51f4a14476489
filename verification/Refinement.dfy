/**
 The write path and the store together: whatever writers and flush threads do, and whatever compactions run
 beside them, the store follows with its own steps and holds exactly the entries they have inserted.
 */
module Refinement {
  import opened Keys
  import opened ReadSets
  import opened Versions
  import opened VersionBuilder
  import Merge
  import Scheduler
  import Lsm
  import LsmSteps
  import W = WritePath
  import P = WritePathProof

  // ----- What the store knows of the write path -----

  /** The entry written under each sequence number. */
  type Data = nat -> Entry

  ghost predicate DataOk(data: Data) {
    forall n :: data(n).key.seqno == n && Parses(data(n).key)
  }

  ghost function DataOf(ns: set<nat>, data: Data): set<Entry> {
    set n | n in ns :: data(n)
  }

  /** The store's memtable is that of the write path, with the entries of its numbers. */
  ghost predicate MemIs(m: Lsm.Mem, t: W.Table, data: Data) {
    && m.first == t.first && m.limit == t.largest + 1
    && Sorted(m.entries) && Entries(m.entries) == DataOf(t.content, data)
  }

  ghost function Inserted(tables: seq<W.Table>): set<nat> {
    set k, n | 0 <= k < |tables| && n in tables[k].content :: n
  }

  /** The store has the tables from number `c` on as its memtables, newest first; those before are on level 0
      or deeper. */
  ghost predicate Repr(tables: seq<W.Table>, c: nat, s: Lsm.State, data: Data) {
    && c < |tables| && |s.mems| == |tables| - c
    && (forall i :: 0 <= i < |s.mems| ==> MemIs(s.mems[i], tables[|tables| - 1 - i], data))
    && s.written == DataOf(Inserted(tables), data)
  }

  ghost predicate Represents(w: W.State, s: Lsm.State, data: Data) {
    Repr(w.tables, |w.level0|, s, data)
  }

  ghost predicate Closed(Q: Lsm.State -> bool) {
    forall s, s' {:trigger Lsm.Step(s, s')} :: Q(s) && Lsm.Step(s, s') ==> Q(s')
  }

  /** The empty store with one memtable of `size` numbers. */
  function EmptyStore(size: nat): Lsm.State {
    Lsm.State([Lsm.Mem(0, size, [])], seq(NUM_LEVELS, _ => []), seq(NUM_LEVELS, _ => []), {}, {}, {}, {})
  }

  lemma {:induction false} StartsAlike(w: W.State, data: Data)
    requires W.Init(w)
    ensures Lsm.Init(EmptyStore(w.size)) && Represents(w, EmptyStore(w.size), data)
  {
    assert Inserted(w.tables) == {};
  }

  // ----- Write path and store side by side -----

  ghost predicate FlushesTo(s: Lsm.State, s': Lsm.State) {
    Lsm.Shaped(s) && exists f :: Lsm.Flush(s, s', f)
  }

  /** One flush after the other. */
  ghost predicate FlushRun(run: seq<Lsm.State>) {
    Linked(FlushesTo, run)
  }

  ghost predicate Linked<T>(R: (T, T) -> bool, run: seq<T>) {
    forall i, j :: 0 <= i < |run| && j == i + 1 && j < |run| ==> R(run[i], run[j])
  }

  /** As many flushes. */
  ghost predicate Flushes(s: Lsm.State, s': Lsm.State, k: nat) {
    exists run: seq<Lsm.State> :: FlushRun(run) && |run| == k + 1 && run[0] == s && run[k] == s'
  }

  ghost predicate Inserts(s: Lsm.State, s': Lsm.State, i: nat, e: Entry) {
    exists es :: Lsm.Insert(s, s', i, e, es)
  }

  /** The store's part in a writer's step. */
  ghost predicate WriterAlong(w: W.State, w': W.State, v: nat, s: Lsm.State, s': Lsm.State, data: Data)
    requires Lsm.Shaped(s)
  {
    if W.Switch(w, w', v) then
      Lsm.Seal(s, s', w'.tables[|w.tables|].largest + 1)
    else if W.Insert(w, w', v) then
      var p := w.writers[v];
      Inserts(s, s', |w.tables| - 1 - p.t, data(p.n))
    else
      s' == s
  }

  /** The store's part in a flush thread's step: one flush for each memtable committed. */
  ghost predicate FlusherAlong(w: W.State, w': W.State, s: Lsm.State, s': Lsm.State) {
    |w.level0| <= |w'.level0| && Flushes(s, s', |w'.level0| - |w.level0|)
  }

  ghost predicate PathStep(w: W.State, w': W.State, s: Lsm.State, s': Lsm.State, data: Data) {
    && Lsm.Shaped(s)
    && (|| (exists v :: W.WriterStep(w, w', v) && WriterAlong(w, w', v, s, s', data))
        || (exists j :: W.FlusherStep(w, w', j) && FlusherAlong(w, w', s, s')))
  }

  /** A compaction is picked, moved or finished. */
  ghost predicate Compacts(s: Lsm.State, s': Lsm.State) {
    && Lsm.Shaped(s)
    && (|| (exists j :: Lsm.Pick(s, s', j)) || (exists j :: Lsm.Move(s, s', j))
        || (exists j, es, ts, outs :: Lsm.Finish(s, s', j, es, ts, outs)))
  }

  datatype Joint = Joint(path: W.State, store: Lsm.State)

  ghost predicate JointStep(a: Joint, b: Joint, data: Data) {
    PathStep(a.path, b.path, a.store, b.store, data) || (b.path == a.path && Compacts(a.store, b.store))
  }

  ghost predicate JointInit(a: Joint) {
    W.Init(a.path) && |a.path.writers| <= a.path.size && a.store == EmptyStore(a.path.size)
  }

  /** Every interleaving of writers, flush threads and compactions. */
  ghost predicate JointRun(tr: seq<Joint>, data: Data) {
    && tr != [] && JointInit(tr[0])
    && forall i, j :: 0 <= i < |tr| && j == i + 1 && j < |tr| ==> JointStep(tr[i], tr[j], data)
  }

  ghost predicate JointInv(w: W.State, s: Lsm.State, data: Data) {
    P.Inv(w) && Lsm.Inv(s) && Represents(w, s, data)
  }

  // ----- Steps the store takes no part in -----

  /** The ranges and the contents of the tables are the same. */
  ghost predicate SameContents(a: seq<W.Table>, b: seq<W.Table>) {
    && |a| == |b|
    && forall k :: 0 <= k < |a| ==>
         a[k].first == b[k].first && a[k].largest == b[k].largest && a[k].content == b[k].content
  }

  lemma {:induction false} SameRepr(a: seq<W.Table>, b: seq<W.Table>, c: nat, s: Lsm.State, data: Data)
    requires Repr(a, c, s, data) && SameContents(a, b)
    ensures Repr(b, c, s, data)
  {
    assert Inserted(a) == Inserted(b);
  }

  // ----- Every joint step keeps the two together -----

  lemma {:induction false} InsertedSame(a: seq<W.Table>, b: seq<W.Table>)
    requires |b| == |a| + 1 && SameContents(a, b[..|a|]) && b[|a|].content == {}
    ensures Inserted(a) == Inserted(b)
  {
    forall n
      ensures n in Inserted(a) <==> n in Inserted(b)
    {
      if n in Inserted(a) {
        var k :| 0 <= k < |a| && n in a[k].content;
        assert b[..|a|][k] == b[k];
      }
      if n in Inserted(b) {
        var k :| 0 <= k < |b| && n in b[k].content;
        assert b[..|a|][k] == b[k];
      }
    }
  }

  lemma {:induction false} SealKeepsRepr(a: seq<W.Table>, b: seq<W.Table>, c: nat, s: Lsm.State, s': Lsm.State,
      data: Data, limit: nat)
    requires Lsm.Shaped(s) && Repr(a, c, s, data) && |b| == |a| + 1 && SameContents(a, b[..|a|])
    requires b[|a|].first == a[|a| - 1].largest + 1 && limit == b[|a|].largest + 1 && b[|a|].content == {}
    requires Lsm.Seal(s, s', limit)
    ensures Repr(b, c, s', data)
  {
    assert MemIs(s.mems[0], a[|a| - 1], data);
    forall i | 0 <= i < |s'.mems|
      ensures MemIs(s'.mems[i], b[|b| - 1 - i], data)
    {
      if i > 0 {
        assert MemIs(s.mems[i - 1], a[|a| - i], data);
        assert b[..|a|][|a| - i] == b[|b| - 1 - i];
      }
    }
    InsertedSame(a, b);
  }

  lemma {:induction false} InsertedMore(a: seq<W.Table>, b: seq<W.Table>, t: nat, n: nat)
    requires t < |a| && b == a[t := a[t].(content := a[t].content + {n})]
    ensures Inserted(b) == Inserted(a) + {n}
  {
    assert n in b[t].content;
    forall m
      ensures m in Inserted(b) <==> m in Inserted(a) || m == n
    {
      if m in Inserted(a) {
        var k :| 0 <= k < |a| && m in a[k].content;
        assert m in b[k].content;
      }
      if m in Inserted(b) {
        var k :| 0 <= k < |b| && m in b[k].content;
        assert m in a[k].content || m == n;
      }
    }
  }

  lemma {:induction false} InsertKeepsRepr(a: seq<W.Table>, b: seq<W.Table>, c: nat, s: Lsm.State, s': Lsm.State,
      data: Data, t: nat, n: nat, es: seq<Entry>)
    requires Repr(a, c, s, data) && c <= t < |a|
    requires b == a[t := a[t].(content := a[t].content + {n})]
    requires Lsm.Insert(s, s', |a| - 1 - t, data(n), es)
    ensures Repr(b, c, s', data)
  {
    var i, e := |a| - 1 - t, data(n);
    assert MemIs(s.mems[i], a[t], data);
    assert DataOf(b[t].content, data) == DataOf(a[t].content, data) + {e};
    forall j | 0 <= j < |s'.mems|
      ensures MemIs(s'.mems[j], b[|b| - 1 - j], data)
    {
      assert MemIs(s.mems[j], a[|a| - 1 - j], data);
    }
    InsertedMore(a, b, t, n);
    assert DataOf(Inserted(a) + {n}, data) == DataOf(Inserted(a), data) + {e};
  }

  lemma {:induction false} OneLess(tables: seq<W.Table>, c: nat, s: Lsm.State, s': Lsm.State, data: Data)
    requires Repr(tables, c, s, data) && c + 1 < |tables|
    requires s'.mems == s.mems[..|s.mems| - 1] && s'.written == s.written
    ensures Repr(tables, c + 1, s', data)
  {
  }

  lemma {:induction false} SealIsStep(s: Lsm.State, s': Lsm.State, limit: nat)
    requires Lsm.Shaped(s) && Lsm.Seal(s, s', limit)
    ensures Lsm.Step(s, s')
  {
  }

  lemma {:induction false} InsertIsStep(s: Lsm.State, s': Lsm.State, i: nat, e: Entry, es: seq<Entry>)
    requires Lsm.Shaped(s) && Lsm.Insert(s, s', i, e, es)
    ensures Lsm.Step(s, s')
  {
  }

  lemma {:induction false} FlushIsStep(s: Lsm.State, s': Lsm.State)
    requires FlushesTo(s, s')
    ensures Lsm.Step(s, s') && s.mems != [] && s'.mems == s.mems[..|s.mems| - 1] && s'.written == s.written
  {
  }

  lemma {:induction false} FlushRunKeeps(Q: Lsm.State -> bool, tables: seq<W.Table>, c: nat, run: seq<Lsm.State>,
      i: nat, data: Data)
    requires FlushRun(run) && i < |run| && Closed(Q) && Q(run[0]) && Repr(tables, c, run[0], data) && c + i < |tables|
    ensures Q(run[i]) && Repr(tables, c + i, run[i], data)
  {
    if i > 0 {
      var a, b := run[i - 1], run[i];
      FlushRunKeeps(Q, tables, c, run, i - 1, data);
      assert FlushesTo(a, b);
      FlushIsStep(a, b);
      OneLess(tables, c + i - 1, a, b, data);
    }
  }

  lemma {:induction false} FlushesKeep(Q: Lsm.State -> bool, tables: seq<W.Table>, c: nat, s: Lsm.State,
      s': Lsm.State, k: nat, data: Data)
    requires Closed(Q) && Q(s) && Repr(tables, c, s, data) && c + k < |tables| && Flushes(s, s', k)
    ensures Q(s') && Repr(tables, c + k, s', data)
  {
    var run: seq<Lsm.State> :| FlushRun(run) && |run| == k + 1 && run[0] == s && run[k] == s';
    FlushRunKeeps(Q, tables, c, run, k, data);
  }

  /** A writer that is about to insert has a table that is not on level 0 yet, and its number is not there. */
  lemma {:induction false} NotCommitted(w: W.State, v: nat)
    requires P.Inv(w) && v in w.writers && w.writers[v].Placed?
    ensures var p := w.writers[v];
            |w.level0| <= p.t < |w.tables| && W.InRange(w.tables[p.t], p.n) && p.n !in w.tables[p.t].content
  {
    assert P.WriterOk(w, v);
    var p := w.writers[v];
    P.LateNumber(w, p.n, p.t);
  }

  lemma {:induction false} CommittedAreFull(w: W.State, k: nat)
    requires P.Inv(w) && k < |w.level0|
    ensures k < |w.tables| - 1 && w.tables[k].content == W.Range(w.tables[k])
  {
    assert P.TableOk(w.tables[k], w.size, w.next);
    P.AbleIsFull(w, k);
  }

  lemma {:induction false} OneTouched(a: seq<W.Table>, t: nat, m: W.Table)
    requires t < |a| && m.first == a[t].first && m.largest == a[t].largest && m.content == a[t].content
    ensures SameContents(a, a[t := m])
  {
  }

  lemma {:induction false} QuietWriter(w: W.State, w': W.State, v: nat)
    requires W.WriterStep(w, w', v) && !W.Switch(w, w', v) && !W.Insert(w, w', v)
    ensures SameContents(w.tables, w'.tables) && w'.level0 == w.level0
  {
    if W.Announce(w, w', v) {
      OneTouched(w.tables, |w.tables| - 2, w'.tables[|w.tables| - 2]);
    } else if W.Count(w, w', v) || W.CheckFull(w, w', v) {
      OneTouched(w.tables, w.writers[v].t, w'.tables[w.writers[v].t]);
    } else {
      assert w'.tables == w.tables;
    }
  }

  lemma {:induction false} QuietFlusher(w: W.State, w': W.State, j: nat)
    requires W.FlusherStep(w, w', j) && !W.Install(w, w', j)
    ensures SameContents(w.tables, w'.tables) && w'.level0 == w.level0
  {
    if i: nat :| W.Pick(w, w', j, i) {
      OneTouched(w.tables, w.memlist[i], w'.tables[w.memlist[i]]);
    } else if W.Mark(w, w', j) {
      OneTouched(w.tables, w.flushers[j].t, w'.tables[w.flushers[j].t]);
    } else {
      assert w'.tables == w.tables;
    }
  }

  lemma {:induction false} SealKeeps(Q: Lsm.State -> bool, a: seq<W.Table>, b: seq<W.Table>, c: nat, s: Lsm.State,
      s': Lsm.State, data: Data)
    requires Closed(Q) && Q(s) && Lsm.Shaped(s) && Repr(a, c, s, data)
    requires |b| == |a| + 1 && SameContents(a, b[..|a|])
    requires b[|a|].first == a[|a| - 1].largest + 1 && b[|a|].content == {}
    requires Lsm.Seal(s, s', b[|a|].largest + 1)
    ensures Q(s') && Repr(b, c, s', data)
  {
    SealIsStep(s, s', b[|a|].largest + 1);
    SealKeepsRepr(a, b, c, s, s', data, b[|a|].largest + 1);
  }

  lemma {:induction false} InsertKeeps(Q: Lsm.State -> bool, a: seq<W.Table>, b: seq<W.Table>, c: nat, s: Lsm.State,
      s': Lsm.State, data: Data, t: nat, n: nat)
    requires Closed(Q) && Q(s) && Lsm.Shaped(s) && Repr(a, c, s, data) && c <= t < |a|
    requires b == a[t := a[t].(content := a[t].content + {n})]
    requires Inserts(s, s', |a| - 1 - t, data(n))
    ensures Q(s') && Repr(b, c, s', data)
  {
    var es :| Lsm.Insert(s, s', |a| - 1 - t, data(n), es);
    InsertIsStep(s, s', |a| - 1 - t, data(n), es);
    InsertKeepsRepr(a, b, c, s, s', data, t, n, es);
  }

  lemma {:induction false} SwitchTables(w: W.State, w': W.State, v: nat)
    requires W.Switch(w, w', v)
    ensures var a, b := w.tables, w'.tables;
            && |b| == |a| + 1 && SameContents(a, b[..|a|]) && w'.level0 == w.level0
            && b[|a|].first == a[|a| - 1].largest + 1 && b[|a|].content == {} && b[|a|].first <= b[|a|].largest
  {
  }

  /** The table of a writer that is about to insert is not on level 0 yet. */
  ghost predicate InTime(w: W.State, v: nat) {
    v in w.writers && w.writers[v].Placed? ==> |w.level0| <= w.writers[v].t < |w.tables|
  }

  lemma {:induction false} WriterKeeps(Q: Lsm.State -> bool, w: W.State, w': W.State, v: nat, s: Lsm.State,
      s': Lsm.State, data: Data)
    requires Closed(Q) && Q(s) && Lsm.Shaped(s) && Represents(w, s, data) && InTime(w, v)
    requires W.WriterStep(w, w', v) && WriterAlong(w, w', v, s, s', data)
    ensures Q(s') && Represents(w', s', data)
  {
    var a, b, c := w.tables, w'.tables, |w.level0|;
    if W.Switch(w, w', v) {
      SwitchTables(w, w', v);
      SealKeeps(Q, a, b, c, s, s', data);
    } else if W.Insert(w, w', v) {
      InsertKeeps(Q, a, b, c, s, s', data, w.writers[v].t, w.writers[v].n);
    } else {
      QuietWriter(w, w', v);
      SameRepr(a, b, c, s, data);
    }
  }

  lemma {:induction false} FlusherKeeps(Q: Lsm.State -> bool, w: W.State, w': W.State, j: nat, s: Lsm.State,
      s': Lsm.State, data: Data)
    requires Closed(Q) && Q(s) && Represents(w, s, data) && |w'.level0| < |w'.tables|
    requires W.FlusherStep(w, w', j) && FlusherAlong(w, w', s, s')
    ensures Q(s') && Represents(w', s', data)
  {
    var c := |w.level0|;
    if W.Install(w, w', j) {
      FlushesKeep(Q, w.tables, c, s, s', |w'.level0| - c, data);
    } else {
      QuietFlusher(w, w', j);
      var run: seq<Lsm.State> :| FlushRun(run) && |run| == 1 && run[0] == s && run[0] == s';
      SameRepr(w.tables, w'.tables, c, s, data);
    }
  }

  lemma {:induction false} CommittedAreFewer(w: W.State)
    requires P.Inv(w)
    ensures |w.level0| < |w.tables|
  {
    if |w.level0| > 0 {
      CommittedAreFull(w, |w.level0| - 1);
    }
  }

  lemma {:induction false} WritersInTime(w: W.State, v: nat)
    requires P.Inv(w)
    ensures InTime(w, v)
  {
    if v in w.writers && w.writers[v].Placed? {
      NotCommitted(w, v);
    }
  }

  lemma {:induction false} PathKeeps(Q: Lsm.State -> bool, w: W.State, w': W.State, s: Lsm.State, s': Lsm.State,
      data: Data)
    requires Closed(Q) && Q(s) && P.Inv(w) && Represents(w, s, data) && PathStep(w, w', s, s', data)
    ensures Q(s') && P.Inv(w') && Represents(w', s', data)
  {
    if v :| W.WriterStep(w, w', v) && WriterAlong(w, w', v, s, s', data) {
      P.StepKeepsInv(w, w');
      WritersInTime(w, v);
      WriterKeeps(Q, w, w', v, s, s', data);
    } else {
      var j :| W.FlusherStep(w, w', j) && FlusherAlong(w, w', s, s');
      P.StepKeepsInv(w, w');
      CommittedAreFewer(w');
      FlusherKeeps(Q, w, w', j, s, s', data);
    }
  }

  /** Compactions run beside the write path without disturbing it. */
  lemma {:induction false} CompactionsKeep(Q: Lsm.State -> bool, w: W.State, s: Lsm.State, s': Lsm.State, data: Data)
    requires Closed(Q) && Q(s) && Represents(w, s, data) && Compacts(s, s')
    ensures Q(s') && Represents(w, s', data)
  {
    CompactionIsStep(s, s');
  }

  lemma {:induction false} CompactionIsStep(s: Lsm.State, s': Lsm.State)
    requires Compacts(s, s')
    ensures Lsm.Step(s, s') && s'.mems == s.mems && s'.written == s.written
  {
  }

  // ----- Every interleaving -----

  lemma {:induction false} PrefixIsRun(tr: seq<Joint>, data: Data)
    requires JointRun(tr, data) && |tr| > 1
    ensures JointRun(tr[..|tr| - 1], data) && JointStep(tr[|tr| - 2], tr[|tr| - 1], data)
  {
    var front := tr[..|tr| - 1];
    forall i, j | 0 <= i < |front| && j == i + 1 && j < |front|
      ensures JointStep(front[i], front[j], data)
    {
      assert JointStep(tr[i], tr[j], data);
    }
  }

  lemma {:induction false} JointKeeps(Q: Lsm.State -> bool, a: Joint, b: Joint, data: Data)
    requires Closed(Q) && Q(a.store) && P.Inv(a.path) && Represents(a.path, a.store, data) && JointStep(a, b, data)
    ensures Q(b.store) && P.Inv(b.path) && Represents(b.path, b.store, data)
  {
    if PathStep(a.path, b.path, a.store, b.store, data) {
      PathKeeps(Q, a.path, b.path, a.store, b.store, data);
    } else {
      CompactionsKeep(Q, a.path, a.store, b.store, data);
    }
  }

  lemma {:induction false} JointRunKeeps(Q: Lsm.State -> bool, tr: seq<Joint>, data: Data)
    requires JointRun(tr, data) && Closed(Q) && Q(tr[0].store)
    ensures var z := tr[|tr| - 1]; Q(z.store) && P.Inv(z.path) && Represents(z.path, z.store, data)
    decreases |tr|
  {
    var z := tr[|tr| - 1];
    if |tr| == 1 {
      StartsAlike(z.path, data);
      P.InitHasInv(z.path);
    } else {
      PrefixIsRun(tr, data);
      JointRunKeeps(Q, tr[..|tr| - 1], data);
      JointKeeps(Q, tr[|tr| - 2], z, data);
    }
  }

  ghost predicate Reached(s0: Lsm.State, s: Lsm.State) {
    exists run: seq<Lsm.State> :: Lsm.Run(run) && run[0] == s0 && run[|run| - 1] == s
  }

  lemma {:induction false} ReachedIsClosed(s0: Lsm.State)
    ensures Closed(s => Reached(s0, s))
  {
    forall s, s' | Reached(s0, s) && Lsm.Step(s, s')
      ensures Reached(s0, s')
    {
      var run: seq<Lsm.State> :| Lsm.Run(run) && run[0] == s0 && run[|run| - 1] == s;
      var longer := run + [s'];
      assert longer[|longer| - 1] == s' && longer[0] == s0;
      forall i, j | 0 <= i < |longer| && j == i + 1 && j < |longer|
        ensures Lsm.Step(longer[i], longer[j])
      {
        assert j < |run| ==> Lsm.Step(run[i], run[j]);
      }
      assert Lsm.Run(longer);
    }
  }

  /** Whatever writers, flush threads and compactions do, and in whatever order: the store is in a state that its
      own steps reach, has the memtables of the write path and exactly the entries inserted, and its latest reads
      are those of all entries inserted so far, in whatever memtable or file they are. */
  lemma {:induction false} InterleavingsAreSafe(tr: seq<Joint>, data: Data)
    requires JointRun(tr, data)
    ensures var w, s := tr[|tr| - 1].path, tr[|tr| - 1].store;
            && Reached(EmptyStore(tr[0].path.size), s) && P.Inv(w) && Lsm.Inv(s) && Represents(w, s, data)
            && s.written == DataOf(Inserted(w.tables), data)
            && SameReads(DataOf(Inserted(w.tables), data), Lsm.Stored(s), Lsm.Active(s).limit)
  {
    var s0 := tr[0].store;
    StartIsReached(tr[0].path, data);
    ReachedIsClosed(s0);
    JointRunKeeps(s => Reached(s0, s), tr, data);
    ReachedHasInv(s0, tr[|tr| - 1].store);
  }

  lemma {:induction false} ReachedHasInv(s0: Lsm.State, s: Lsm.State)
    requires Reached(s0, s)
    ensures Lsm.Inv(s)
  {
    var run: seq<Lsm.State> :| Lsm.Run(run) && run[0] == s0 && run[|run| - 1] == s;
    LsmSteps.RunKeepsInv(run, |run| - 1);
  }

  lemma {:induction false} StartIsReached(w: W.State, data: Data)
    requires W.Init(w)
    ensures Reached(EmptyStore(w.size), EmptyStore(w.size))
  {
    StartsAlike(w, data);
    var start := [EmptyStore(w.size)];
    assert Lsm.Run(start) && start[|start| - 1] == EmptyStore(w.size) && start[0] == EmptyStore(w.size);
  }

  // ----- The store can always follow -----

  /** A sorted list takes one more entry. */
  lemma {:induction false} InsertSorted(es: seq<Entry>, e: Entry) returns (r: seq<Entry>)
    requires Sorted(es) && ValidKind(e.key.kind) && forall d :: d in es ==> d.key != e.key
    ensures Sorted(r) && Entries(r) == Entries(es) + {e}
  {
    var i := 0;
    while i < |es| && Less(es[i].key, e.key)
      invariant i <= |es| && forall j :: 0 <= j < i ==> Less(es[j].key, e.key)
    {
      i := i + 1;
    }
    r := es[..i] + [e] + es[i..];
    forall j | i <= j < |es|
      ensures Less(e.key, es[j].key)
    {
      assert es[i] in es;
      CompareIsTotalOrder(e.key, es[i].key, es[j].key);
      assert i < j ==> Less(es[i].key, es[j].key);
    }
    assert es == es[..i] + es[i..];
    StaysSorted(es, e, i);
  }

  lemma {:induction false} StaysSorted(es: seq<Entry>, e: Entry, i: nat)
    requires Sorted(es) && ValidKind(e.key.kind) && i <= |es|
    requires forall j :: 0 <= j < i ==> Less(es[j].key, e.key)
    requires forall j :: i <= j < |es| ==> Less(e.key, es[j].key)
    ensures Sorted(es[..i] + [e] + es[i..])
  {
    var r := es[..i] + [e] + es[i..];
    forall a, b | 0 <= a < b < |r|
      ensures Less(r[a].key, r[b].key)
    {
      if a != i && b != i {
        var a', b' := if a < i then a else a - 1, if b < i then b else b - 1;
        assert r[a] == es[a'] && r[b] == es[b'];
      }
    }
  }

  lemma {:induction false} InsertHappens(a: seq<W.Table>, c: nat, s: Lsm.State, data: Data, t: nat, n: nat)
      returns (s': Lsm.State, es: seq<Entry>)
    requires DataOk(data) && Repr(a, c, s, data) && c <= t < |a| && W.InRange(a[t], n) && n !in a[t].content
    ensures Lsm.Insert(s, s', |a| - 1 - t, data(n), es)
  {
    var i := |a| - 1 - t;
    var m, e := s.mems[i], data(n);
    assert MemIs(m, a[t], data);
    forall d | d in m.entries
      ensures d.key.seqno != n
    {
      assert d in Entries(m.entries);
    }
    es := InsertSorted(m.entries, e);
    s' := s.(mems := s.mems[i := m.(entries := es)], written := s.written + {e});
  }

  lemma {:induction false} AboveUsed(used: set<Id>) returns (n: nat)
    ensures forall id :: id in used ==> id.0 < n
    decreases used
  {
    n := 0;
    if id :| id in used {
      n := AboveUsed(used - {id});
      n := if id.0 < n then n else id.0 + 1;
    }
  }

  /** The file a flush writes. */
  ghost function FileFor(t: seq<Entry>, number: nat): File
    requires t != []
  {
    File(number, 0, 0, t[0].key, t[|t| - 1].key, Merge.Survivors(t, None, |t|))
  }

  ghost function Flushed(s: Lsm.State, f: File): Lsm.State
    requires Lsm.Shaped(s)
  {
    var e := Lsm.FlushEdit(f);
    var levels := s.levels[0 := MergeFrom(s.levels[0], 0, [f], 0, {})];
    s.(mems := s.mems[..|s.mems| - 1],
       levels := levels,
       inProgress := seq(NUM_LEVELS, l requires 0 <= l < NUM_LEVELS =>
                       Flagged(levels[l], s.under - Lsm.AddedBelow(e, l + 1))),
       under := s.under - Lsm.AddedBelow(e, NUM_LEVELS),
       used := s.used + Lsm.AddedBelow(e, NUM_LEVELS))
  }

  lemma {:induction false} FlushedIsApplied(s: Lsm.State, f: File)
    requires Lsm.Shaped(s) && Lsm.FilesOk(s) && |s.mems| > 1 && forall g :: g in s.levels[0] ==> g.number < f.number
    ensures Lsm.Applied(s, Flushed(s, f), Lsm.FlushEdit(f))
  {
    var e, s' := Lsm.FlushEdit(f), Flushed(s, f);
    LsmSteps.FlushAdds(f);
    forall g | g in s.levels[0]
      ensures FileLess(f, g) || FileLess(g, f)
    {
    }
    MergeIsEdit(s.levels[0], [f], {});
    forall l | 0 <= l < NUM_LEVELS
      ensures Saved(s.levels[l], AddedAt(e, l), DeletedAfter({}, e, l), s'.levels[l])
    {
      assert DeletedAfter({}, e, l) == {};
      if l > 0 {
        assert Edited(Elements(s.levels[l]), {}, {}) == Elements(s.levels[l]);
      }
    }
  }

  /** A full memtable that is not the active one can always be flushed. */
  lemma {:induction false} FlushHappens(s: Lsm.State) returns (s': Lsm.State, f: File)
    requires Lsm.Inv(s) && |s.mems| > 1 && Lsm.Full(Lsm.Oldest(s))
    ensures Lsm.Flush(s, s', f)
  {
    var m := Lsm.Oldest(s);
    assert m in s.mems && Lsm.Meant(m, m.first);
    var n := AboveUsed(s.used);
    f := FileFor(m.entries, n);
    s' := Flushed(s, f);
    NumberIsNew(s, f);
    FlushedIsApplied(s, f);
  }

  lemma {:induction false} NumberIsNew(s: Lsm.State, f: File)
    requires Lsm.Shaped(s) && Lsm.IdsKnown(s) && forall id :: id in s.used ==> id.0 < f.number
    ensures IdOf(f) !in s.used && forall g :: g in s.levels[0] ==> g.number < f.number
  {
    forall g | g in s.levels[0]
      ensures g.number < f.number
    {
      assert IdOf(g) in s.used;
    }
  }

  lemma {:induction false} FullTable(m: Lsm.Mem, t: W.Table, data: Data)
    requires DataOk(data) && MemIs(m, t, data) && t.content == W.Range(t)
    ensures Lsm.Full(m)
  {
    forall n: nat | Lsm.Meant(m, n)
      ensures exists e :: e in m.entries && e.key.seqno == n
    {
      assert n in t.content;
      assert data(n) in Entries(m.entries) && data(n).key.seqno == n;
    }
  }

  lemma {:induction false} OneFlushHappens(tables: seq<W.Table>, c: nat, s: Lsm.State, data: Data)
      returns (m: Lsm.State)
    requires Lsm.Inv(s) && DataOk(data) && Repr(tables, c, s, data) && c + 1 < |tables|
    requires tables[c].content == W.Range(tables[c])
    ensures FlushesTo(s, m) && Lsm.Inv(m) && Repr(tables, c + 1, m, data)
  {
    var last := |s.mems| - 1;
    assert MemIs(s.mems[last], tables[c], data);
    FullTable(s.mems[last], tables[c], data);
    var f;
    m, f := FlushHappens(s);
    LsmSteps.FlushKeepsInv(s, m, f);
    OneLess(tables, c, s, m, data);
  }

  lemma {:induction false} OneFlushFirst(s: Lsm.State, m: Lsm.State, s': Lsm.State, k: nat)
    requires FlushesTo(s, m) && Flushes(m, s', k)
    ensures Flushes(s, s', k + 1)
  {
    var run: seq<Lsm.State> :| FlushRun(run) && |run| == k + 1 && run[0] == m && run[k] == s';
    LinkedFrom(FlushesTo, s, run);
    assert FlushRun([s] + run) && ([s] + run)[k + 1] == s';
  }

  lemma {:induction false} LinkedFrom<T>(R: (T, T) -> bool, x: T, run: seq<T>)
    requires run != [] && R(x, run[0]) && Linked(R, run)
    ensures Linked(R, [x] + run)
  {
    var longer := [x] + run;
    forall i, j | 0 <= i < |longer| && j == i + 1 && j < |longer|
      ensures R(longer[i], longer[j])
    {
      assert i > 0 ==> R(run[i - 1], run[i]);
    }
  }

  lemma {:induction false} NoFlush(s: Lsm.State)
    ensures Flushes(s, s, 0)
  {
    var run := [s];
    assert FlushRun(run) && run[0] == s;
  }

  /** Full memtables that are not active can be flushed one after the other. */
  lemma {:induction false} FlushesHappen(tables: seq<W.Table>, c: nat, k: nat, s: Lsm.State, data: Data)
      returns (s': Lsm.State)
    requires Lsm.Inv(s) && DataOk(data) && Repr(tables, c, s, data) && c + k < |tables|
    requires forall i :: c <= i < c + k ==> tables[i].content == W.Range(tables[i])
    ensures Flushes(s, s', k)
    decreases k
  {
    if k == 0 {
      s' := s;
      NoFlush(s);
    } else {
      var m := OneFlushHappens(tables, c, s, data);
      s' := FlushesHappen(tables, c + 1, k - 1, m, data);
      OneFlushFirst(s, m, s', k - 1);
    }
  }

  lemma {:induction false} SealHappens(a: seq<W.Table>, c: nat, s: Lsm.State, data: Data, limit: nat)
      returns (s': Lsm.State)
    requires Lsm.Shaped(s) && Repr(a, c, s, data) && a[|a| - 1].largest + 1 < limit
    ensures Lsm.Seal(s, s', limit)
  {
    assert MemIs(s.mems[0], a[|a| - 1], data);
    s' := s.(mems := [Lsm.Mem(Lsm.Active(s).limit, limit, [])] + s.mems);
  }

  lemma {:induction false} WriterFollows(w: W.State, w': W.State, v: nat, s: Lsm.State, data: Data)
      returns (s': Lsm.State)
    requires Lsm.Shaped(s) && Represents(w, s, data) && DataOk(data) && W.WriterStep(w, w', v) && InTime(w, v)
    requires W.Insert(w, w', v) ==>
               var p := w.writers[v]; W.InRange(w.tables[p.t], p.n) && p.n !in w.tables[p.t].content
    ensures WriterAlong(w, w', v, s, s', data)
  {
    s' := s;
    if W.Switch(w, w', v) {
      SwitchTables(w, w', v);
      s' := SealHappens(w.tables, |w.level0|, s, data, w'.tables[|w.tables|].largest + 1);
    } else if W.Insert(w, w', v) {
      var es;
      s', es := InsertHappens(w.tables, |w.level0|, s, data, w.writers[v].t, w.writers[v].n);
    }
  }

  /** The committed tables are full, and the active one is not among them. */
  ghost predicate Committed(w: W.State) {
    |w.level0| < |w.tables| && forall i :: 0 <= i < |w.level0| ==> w.tables[i].content == W.Range(w.tables[i])
  }

  lemma {:induction false} InvIsCommitted(w: W.State)
    requires P.Inv(w)
    ensures Committed(w)
  {
    CommittedAreFewer(w);
    forall i | 0 <= i < |w.level0|
      ensures w.tables[i].content == W.Range(w.tables[i])
    {
      CommittedAreFull(w, i);
    }
  }

  lemma {:induction false} FlusherFollows(w: W.State, w': W.State, j: nat, s: Lsm.State, data: Data)
      returns (s': Lsm.State)
    requires Lsm.Inv(s) && Represents(w, s, data) && DataOk(data) && W.FlusherStep(w, w', j) && Committed(w')
    ensures FlusherAlong(w, w', s, s')
  {
    if W.Install(w, w', j) {
      s' := FlushesHappen(w.tables, |w.level0|, |w'.level0| - |w.level0|, s, data);
    } else {
      QuietFlusher(w, w', j);
      s' := s;
      NoFlush(s);
    }
  }

  /** Whatever step writers and flush threads take, the store can follow. */
  lemma {:induction false} Follows(w: W.State, w': W.State, s: Lsm.State, data: Data) returns (s': Lsm.State)
    requires JointInv(w, s, data) && DataOk(data) && W.Step(w, w')
    ensures PathStep(w, w', s, s', data)
  {
    P.StepKeepsInv(w, w');
    if v :| W.WriterStep(w, w', v) {
      WritersInTime(w, v);
      if W.Insert(w, w', v) {
        NotCommitted(w, v);
      }
      s' := WriterFollows(w, w', v, s, data);
    } else {
      var j :| W.FlusherStep(w, w', j);
      InvIsCommitted(w');
      s' := FlusherFollows(w, w', j, s, data);
    }
  }

  lemma {:induction false} LongerRun(tr: seq<Joint>, b: Joint, data: Data)
    requires JointRun(tr, data) && JointStep(tr[|tr| - 1], b, data)
    ensures JointRun(tr + [b], data)
  {
    var longer := tr + [b];
    forall i, j | 0 <= i < |longer| && j == i + 1 && j < |longer|
      ensures JointStep(longer[i], longer[j], data)
    {
      assert j < |tr| ==> JointStep(tr[i], tr[j], data);
    }
  }

  /** Every joint run goes on with every step the write path can take. */
  lemma {:induction false} RunGoesOn(tr: seq<Joint>, w': W.State, data: Data) returns (b: Joint)
    requires JointRun(tr, data) && DataOk(data) && W.Step(tr[|tr| - 1].path, w')
    ensures b.path == w' && JointRun(tr + [b], data)
  {
    var z := tr[|tr| - 1];
    InterleavingsAreSafe(tr, data);
    var s' := Follows(z.path, w', z.store, data);
    b := Joint(w', s');
    LongerRun(tr, b, data);
  }

  ghost function Paths(run: seq<Joint>): seq<W.State> {
    seq(|run|, i requires 0 <= i < |run| => run[i].path)
  }

  lemma {:induction false} PathsGrow(run: seq<Joint>, b: Joint)
    ensures Paths(run + [b]) == Paths(run) + [b.path]
  {
  }

  lemma {:induction false} FirstJoint(w: W.State, data: Data)
    requires W.Init(w) && |w.writers| <= w.size
    ensures var run := [Joint(w, EmptyStore(w.size))]; JointRun(run, data) && Paths(run) == [w]
  {
  }

  /** Every run of writers and flush threads is the path of a joint run. */
  lemma {:induction false} PathIsMatched(tr: seq<W.State>, data: Data) returns (run: seq<Joint>)
    requires W.Run(tr) && |tr[0].writers| <= tr[0].size && DataOk(data)
    ensures JointRun(run, data) && Paths(run) == tr
    decreases |tr|
  {
    if |tr| == 1 {
      run := [Joint(tr[0], EmptyStore(tr[0].size))];
      FirstJoint(tr[0], data);
    } else {
      var n := |tr| - 1;
      RunSplits(tr);
      var front := PathIsMatched(tr[..n], data);
      assert Paths(front)[n - 1] == tr[n - 1];
      var b := RunGoesOn(front, tr[n], data);
      run := front + [b];
      PathsGrow(front, b);
    }
  }

  lemma {:induction false} RunSplits(tr: seq<W.State>)
    requires W.Run(tr) && |tr| > 1
    ensures W.Run(tr[..|tr| - 1]) && W.Step(tr[|tr| - 2], tr[|tr| - 1])
  {
  }

  /** Every run of writers and flush threads is matched by a run of the store.  It ends with the memtables of
      the write path and holds exactly what has been inserted; its latest reads are those of all entries
      inserted so far. */
  lemma {:induction false} RunIsMatched(tr: seq<W.State>, data: Data) returns (run: seq<Lsm.State>)
    requires W.Run(tr) && |tr[0].writers| <= tr[0].size && DataOk(data)
    ensures Lsm.Run(run)
    ensures var w, s := W.Last(tr), run[|run| - 1];
            && Lsm.Inv(s) && Represents(w, s, data) && s.written == DataOf(Inserted(w.tables), data)
            && SameReads(DataOf(Inserted(w.tables), data), Lsm.Stored(s), Lsm.Active(s).limit)
  {
    var joint := PathIsMatched(tr, data);
    InterleavingsAreSafe(joint, data);
    assert Paths(joint)[0] == tr[0] && Paths(joint)[|tr| - 1] == W.Last(tr);
    var s := joint[|joint| - 1].store;
    run :| Lsm.Run(run) && run[0] == EmptyStore(tr[0].size) && run[|run| - 1] == s;
  }

  // ----- What the threads carry out -----

  /** A flush thread: the oldest memtable is written and its file installed. */
  method FlushOldest(s: Lsm.State, number: nat) returns (s': Lsm.State, f: File)
    requires Lsm.Inv(s) && |s.mems| > 1 && Lsm.Full(Lsm.Oldest(s))
    requires forall id :: id in s.used ==> id.0 < number
    ensures Lsm.Flush(s, s', f) && Lsm.Inv(s')
  {
    var m := Lsm.Oldest(s);
    assert m in s.mems && Lsm.Meant(m, m.first);
    var ok, t := Merge.BuildTable(m.entries);
    f := File(number, 0, 0, t.value.smallest, t.value.largest, t.value.entries);
    NumberIsNew(s, f);
    LsmSteps.FlushIsInstallable(s, f);
    s' := LsmSteps.LogAndApply(s, Lsm.FlushEdit(f));
    s' := s'.(mems := s.mems[..|s.mems| - 1]);
    LsmSteps.FlushKeepsInv(s, s', f);
  }

  /** The scheduler picks a compaction of `level`, or says why there is none. */
  method StartCompaction(s: Lsm.State, level: nat, start: nat) returns (picked: bool, s': Lsm.State, j: Scheduler.Job)
    requires Lsm.Inv(s) && level + 1 < NUM_LEVELS && start < |s.levels[level]|
    ensures picked ==> j.level == level && Lsm.Pick(s, s', j) && Lsm.Inv(s')
    ensures !picked ==> s' == s
    ensures !picked && level > 0 ==> Scheduler.AllBlocked(s.levels[level], s.levels[level + 1], s.under)
  {
    var inProgress, under;
    picked, j, inProgress, under := Scheduler.PickFileToCompact(s.levels, s.inProgress, s.under, level, start);
    s' := s;
    if picked {
      s' := s.(jobs := s.jobs + {j}, under := under, inProgress := inProgress);
      LsmSteps.PickKeepsInv(s, s', j);
    }
  }

  /** A compaction of a single file that meets nothing moves it down a level. */
  method MoveDown(s: Lsm.State, j: Scheduler.Job) returns (s': Lsm.State)
    requires Lsm.Inv(s) && j in s.jobs && Lsm.Trivial(j)
    ensures Lsm.Move(s, s', j) && Lsm.Inv(s')
  {
    LsmSteps.MoveIsInstallable(s, j);
    s' := LsmSteps.LogAndApply(s, Lsm.MoveEditOf(j));
    s' := s'.(jobs := s.jobs - {j});
    LsmSteps.MoveKeepsInv(s, s', j);
  }

  /** The tables as files with new numbers. */
  function Numbered(ts: seq<Merge.Table>, number: nat): seq<File> {
    seq(|ts|, i requires 0 <= i < |ts| => File(number + i, 0, 0, ts[i].smallest, ts[i].largest, ts[i].entries))
  }

  lemma {:induction false} NumberedAreFresh(s: Lsm.State, ts: seq<Merge.Table>, number: nat)
    requires forall id :: id in s.used ==> id.0 < number
    ensures Lsm.FreshIds(s, Numbered(ts, number))
  {
  }

  lemma {:induction false} InputsParse(s: Lsm.State, j: Scheduler.Job, es: seq<Entry>)
    requires Lsm.Shaped(s) && Lsm.FilesOk(s) && Lsm.JobOk(s, j) && Entries(es) == FileEntries(Scheduler.Inputs(j))
    ensures Merge.AllParse(es)
  {
    forall e | e in es
      ensures Parses(e.key)
    {
      assert e in FileEntries(Scheduler.Inputs(j));
      var f :| f in Scheduler.Inputs(j) && e in f.entries;
      assert f in s.levels[if f in j.in0 then j.level else j.level + 1] && FileOk(f);
    }
  }

  /** A compaction thread: the inputs of a job in flight are merged, and the tables written replace them. */
  method FinishCompaction(s: Lsm.State, j: Scheduler.Job, es: seq<Entry>, number: nat, size: seq<Entry> -> nat,
      cap: nat) returns (s': Lsm.State, ghost ts: seq<Merge.Table>, outs: seq<File>)
    requires Lsm.Inv(s) && j in s.jobs && forall id :: id in s.used ==> id.0 < number
    requires Sorted(es) && Entries(es) == FileEntries(Scheduler.Inputs(j))
    ensures Lsm.Finish(s, s', j, es, ts, outs) && Lsm.Inv(s') && Merge.CutBySize(ts, size, cap)
  {
    assert Lsm.JobOk(s, j);
    InputsParse(s, j, es);
    var tables := Merge.CompactNearData(es, size, cap);
    ts, outs := tables, Numbered(tables, number);
    NumberedAreFresh(s, tables, number);
    LsmSteps.FinishIsInstallable(s, j, es, ts, outs);
    s' := LsmSteps.LogAndApply(s, Lsm.CompactionEdit(j, outs));
    s' := s'.(jobs := s.jobs - {j});
    LsmSteps.FinishKeepsInv(s, s', j, es, ts, outs);
  }

  /** Entries with different keys can be put in order. */
  lemma {:induction false} InOrder(es: set<Entry>) returns (r: seq<Entry>)
    requires Proper(es)
    ensures Sorted(r) && Entries(r) == es
    decreases es
  {
    r := [];
    if e :| e in es {
      var rest := InOrder(es - {e});
      forall d | d in rest
        ensures d.key != e.key
      {
        assert d in Entries(rest);
      }
      r := InsertSorted(rest, e);
    }
  }

  lemma {:induction false} InputIsStored(s: Lsm.State, j: Scheduler.Job, e: Entry)
    requires Lsm.Shaped(s) && Lsm.JobOk(s, j) && e in FileEntries(Scheduler.Inputs(j))
    ensures e in Lsm.Stored(s)
  {
    var f :| f in Scheduler.Inputs(j) && e in f.entries;
    var l := if f in j.in0 then j.level else j.level + 1;
    assert f in s.levels[l];
    assert e in AllEntries(s.levels);
  }

  /** The merge of a job's inputs always has a result: their keys differ. */
  lemma {:induction false} InputsInOrder(s: Lsm.State, j: Scheduler.Job) returns (es: seq<Entry>)
    requires Lsm.Inv(s) && j in s.jobs
    ensures Sorted(es) && Entries(es) == FileEntries(Scheduler.Inputs(j))
  {
    var ins := FileEntries(Scheduler.Inputs(j));
    assert Lsm.JobOk(s, j);
    forall e | e in ins
      ensures e in s.written
    {
      InputIsStored(s, j, e);
    }
    es := InOrder(ins);
  }
}
