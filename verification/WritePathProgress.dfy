/**
 What the write path does not leave undone: full memtables become flushable, flushed ones are committed, and
 neither writers nor flush threads get stuck.
 */
module WritePathProgress {
  import opened Keys
  import opened WritePath
  import P = WritePathProof

  // ----- The invariants -----

  /** Some writer has counted its number in table `k` and has yet to look at the counter. */
  ghost predicate Looks(writers: map<nat, Phase>, k: nat) {
    exists w :: w in writers && writers[w].Counted? && writers[w].t == k
  }

  /** Some writer has inserted `n` into table `k` and has yet to count it. */
  ghost predicate Counts(writers: map<nat, Phase>, n: nat, k: nat) {
    exists w :: w in writers && writers[w] == Inserted(n, k)
  }

  /** A table that has counted its whole range is flushable or about to be, and every number it holds is counted or
      about to be. */
  ghost predicate TableMoves(t: Table, size: nat, k: nat, writers: map<nat, Phase>) {
    && (t.count >= size ==> t.able || Looks(writers, k))
    && forall n :: n in t.content && n !in t.counted ==> Counts(writers, n, k)
  }

  ghost predicate TablesMove(s: State) {
    forall k :: 0 <= k < |s.tables| ==> TableMoves(s.tables[k], s.size, k, s.writers)
  }

  /** All numbers of the tables before the active one have been handed out. */
  ghost predicate HandedOut(s: State) {
    forall k :: 0 <= k < |s.tables| - 1 ==> s.tables[k].largest < s.next
  }

  ghost predicate AnyMarked(flushers: map<nat, Flusher>) {
    exists j :: j in flushers && flushers[j] == Marked
  }

  /** When the oldest table of the list is finished some thread is about to install. */
  ghost predicate FinishedMoves(s: State) {
    s.memlist != [] && |s.level0| < |s.tables| && s.tables[|s.level0|].flush == Finished ==> AnyMarked(s.flushers)
  }

  // ----- Full tables -----

  /** Another writer's move, or one about another table, leaves the table as it is. */
  lemma {:induction false} OtherTable(t: Table, size: nat, k: nat, writers: map<nat, Phase>, w: nat, p: Phase)
    requires TableMoves(t, size, k, writers) && w in writers
    requires !((writers[w].Inserted? || writers[w].Counted?) && writers[w].t == k)
    ensures TableMoves(t, size, k, writers[w := p])
  {
    if Looks(writers, k) {
      var v :| v in writers && writers[v].Counted? && writers[v].t == k;
      assert writers[w := p][v] == writers[v];
    }
    forall n | n in t.content && n !in t.counted
      ensures Counts(writers[w := p], n, k)
    {
      var v :| v in writers && writers[v] == Inserted(n, k);
      assert writers[w := p][v] == writers[v];
    }
  }

  lemma {:induction false} InsertMoves(t: Table, size: nat, k: nat, writers: map<nat, Phase>, w: nat, n: nat)
    requires TableMoves(t, size, k, writers) && w in writers && writers[w].Placed?
    ensures TableMoves(t.(content := t.content + {n}), size, k, writers[w := Inserted(n, k)])
  {
    OtherTable(t, size, k, writers, w, Inserted(n, k));
    assert writers[w := Inserted(n, k)][w] == Inserted(n, k);
  }

  lemma {:induction false} CountMoves(t: Table, size: nat, k: nat, writers: map<nat, Phase>, w: nat, n: nat)
    requires TableMoves(t, size, k, writers) && w in writers && writers[w] == Inserted(n, k)
    ensures TableMoves(t.(count := t.count + 1, counted := t.counted + {n}), size, k, writers[w := Counted(n, k)])
  {
    var after := writers[w := Counted(n, k)];
    assert after[w].Counted? && after[w].t == k;
    forall m | m in t.content && m !in t.counted && m != n
      ensures Counts(after, m, k)
    {
      var v :| v in writers && writers[v] == Inserted(m, k);
      assert after[v] == writers[v];
    }
  }

  lemma {:induction false} CheckMoves(t: Table, size: nat, k: nat, writers: map<nat, Phase>, w: nat)
    requires TableMoves(t, size, k, writers) && w in writers && writers[w].Counted? && writers[w].t == k
    ensures TableMoves(t.(able := t.able || t.count >= size), size, k, writers[w := Idle])
  {
    forall n | n in t.content && n !in t.counted
      ensures Counts(writers[w := Idle], n, k)
    {
      var v :| v in writers && writers[v] == Inserted(n, k);
      assert writers[w := Idle][v] == writers[v];
    }
  }

  /** What a writer has to do with no table's count is of no concern to the tables. */
  lemma {:induction false} QuietMoves(s: State, s': State, w: nat, p: Phase)
    requires TablesMove(s) && w in s.writers && !s.writers[w].Inserted? && !s.writers[w].Counted?
    requires s'.writers == s.writers[w := p] && s'.size == s.size && |s'.tables| >= |s.tables|
    requires forall k :: 0 <= k < |s.tables| ==> SameCounts(s.tables[k], s'.tables[k])
    requires forall k :: |s.tables| <= k < |s'.tables| ==> s'.tables[k].count < s.size && s'.tables[k].content == {}
    ensures TablesMove(s')
  {
    forall k | 0 <= k < |s'.tables|
      ensures TableMoves(s'.tables[k], s'.size, k, s'.writers)
    {
      if k < |s.tables| {
        OtherTable(s.tables[k], s.size, k, s.writers, w, p);
        assert SameCounts(s.tables[k], s'.tables[k]);
      }
    }
  }

  predicate SameCounts(a: Table, b: Table) {
    b.content == a.content && b.counted == a.counted && b.count == a.count && b.able == a.able
  }

  /** A move that touches the writer's own table only. */
  lemma {:induction false} OwnMoves(s: State, s': State, w: nat, p: Phase, k: nat, t: Table)
    requires TablesMove(s) && w in s.writers && k < |s.tables| && TableMoves(t, s.size, k, s.writers[w := p])
    requires s.writers[w].Inserted? || s.writers[w].Counted? ==> s.writers[w].t == k
    requires s'.writers == s.writers[w := p] && s'.size == s.size && s'.tables == s.tables[k := t]
    ensures TablesMove(s')
  {
    forall i | 0 <= i < |s'.tables|
      ensures TableMoves(s'.tables[i], s'.size, i, s'.writers)
    {
      if i != k {
        OtherTable(s.tables[i], s.size, i, s.writers, w, p);
      }
    }
  }

  lemma {:induction false} WriterKeepsTables(s: State, s': State, w: nat)
    requires s.size > 0 && TablesMove(s) && WriterStep(s, s', w)
    ensures TablesMove(s')
  {
    var q := s.writers[w];
    if Insert(s, s', w) {
      InsertMoves(s.tables[q.t], s.size, q.t, s.writers, w, q.n);
      OwnMoves(s, s', w, Inserted(q.n, q.t), q.t, s'.tables[q.t]);
    } else if Count(s, s', w) {
      CountMoves(s.tables[q.t], s.size, q.t, s.writers, w, q.n);
      OwnMoves(s, s', w, Counted(q.n, q.t), q.t, s'.tables[q.t]);
    } else if CheckFull(s, s', w) {
      CheckMoves(s.tables[q.t], s.size, q.t, s.writers, w);
      OwnMoves(s, s', w, Idle, q.t, s'.tables[q.t]);
    } else {
      QuietWriter(s, s', w);
      QuietMoves(s, s', w, s'.writers[w]);
    }
  }

  lemma {:induction false} QuietWriter(s: State, s': State, w: nat)
    requires s.size > 0 && WriterStep(s, s', w) && !Insert(s, s', w) && !Count(s, s', w) && !CheckFull(s, s', w)
    ensures w in s.writers && w in s'.writers && !s.writers[w].Inserted? && !s.writers[w].Counted?
    ensures s'.writers == s.writers[w := s'.writers[w]] && s'.size == s.size && |s'.tables| >= |s.tables|
    ensures forall k :: 0 <= k < |s.tables| ==> SameCounts(s.tables[k], s'.tables[k])
    ensures forall k :: |s.tables| <= k < |s'.tables| ==> s'.tables[k].count < s.size && s'.tables[k].content == {}
  {
  }

  lemma {:induction false} FlusherKeepsTables(s: State, s': State, j: nat)
    requires TablesMove(s) && FlusherStep(s, s', j)
    ensures TablesMove(s')
  {
    FlusherCounts(s, s', j);
    forall k | 0 <= k < |s'.tables|
      ensures TableMoves(s'.tables[k], s'.size, k, s'.writers)
    {
      assert TableMoves(s.tables[k], s.size, k, s.writers) && SameCounts(s.tables[k], s'.tables[k]);
    }
  }

  lemma {:induction false} FlusherCounts(s: State, s': State, j: nat)
    requires FlusherStep(s, s', j)
    ensures s'.writers == s.writers && s'.size == s.size && s'.next == s.next && |s'.tables| == |s.tables|
    ensures forall k :: 0 <= k < |s.tables| ==>
              SameCounts(s.tables[k], s'.tables[k]) && s'.tables[k].largest == s.tables[k].largest
  {
    if i: nat :| Pick(s, s', j, i) {
    } else {
    }
  }

  // ----- Numbers handed out -----

  lemma {:induction false} WriterHandsOut(s: State, s': State, w: nat)
    requires P.Inv(s) && HandedOut(s) && WriterStep(s, s', w)
    ensures HandedOut(s')
  {
    if Switch(s, s', w) {
      assert P.WriterOk(s, w);
    } else {
      SameLargest(s, s', w);
    }
  }

  lemma {:induction false} SameLargest(s: State, s': State, w: nat)
    requires WriterStep(s, s', w) && !Switch(s, s', w)
    ensures |s'.tables| == |s.tables| && s'.next >= s.next
    ensures forall k :: 0 <= k < |s.tables| ==> s'.tables[k].largest == s.tables[k].largest
  {
  }

  // ----- Finished tables -----

  lemma {:induction false} WriterKeepsFinished(s: State, s': State, w: nat)
    requires P.Inv(s) && FinishedMoves(s) && WriterStep(s, s', w)
    ensures FinishedMoves(s')
  {
    var lo := |s.level0|;
    if AddToList(s, s', w) {
      assert P.WriterOk(s, w);
      assert P.StateOk(s, |s.tables| - 2);
    } else {
      OldestStays(s, s', w);
    }
  }

  lemma {:induction false} OldestStays(s: State, s': State, w: nat)
    requires WriterStep(s, s', w) && !AddToList(s, s', w)
    ensures s'.memlist == s.memlist && s'.level0 == s.level0 && s'.flushers == s.flushers
    ensures |s.tables| <= |s'.tables| <= |s.tables| + 1
    ensures forall k :: 0 <= k < |s'.tables| && s'.tables[k].flush == Finished ==>
              k < |s.tables| && s.tables[k].flush == Finished
  {
  }

  lemma {:induction false} FlusherKeepsFinished(s: State, s': State, j: nat)
    requires P.Inv(s) && FinishedMoves(s) && FlusherStep(s, s', j)
    ensures FinishedMoves(s')
  {
    if Install(s, s', j) {
      InstallKeepsFinished(s, s', j);
    } else if Mark(s, s', j) {
      assert s'.flushers[j] == Marked;
    } else {
      EarlyFlusher(s, s', j);
      MarkedStays(s.flushers, s'.flushers, j);
    }
  }

  lemma {:induction false} EarlyFlusher(s: State, s': State, j: nat)
    requires FlusherStep(s, s', j) && !Install(s, s', j) && !Mark(s, s', j)
    ensures j in s.flushers && j in s'.flushers && s.flushers[j] != Marked
    ensures s'.flushers == s.flushers[j := s'.flushers[j]] && s'.memlist == s.memlist && s'.level0 == s.level0
    ensures |s'.tables| == |s.tables|
    ensures forall k :: 0 <= k < |s'.tables| && s'.tables[k].flush == Finished ==> s.tables[k].flush == Finished
  {
    if i: nat :| Pick(s, s', j, i) {
    } else {
    }
  }

  lemma {:induction false} MarkedStays(a: map<nat, Flusher>, b: map<nat, Flusher>, j: nat)
    requires j in a && j in b && a[j] != Marked && b == a[j := b[j]]
    ensures AnyMarked(a) ==> AnyMarked(b)
  {
    if AnyMarked(a) {
      var i :| i in a && a[i] == Marked;
      assert i in b && b[i] == Marked;
    }
  }

  lemma {:induction false} InstallKeepsFinished(s: State, s': State, j: nat)
    requires P.ListOk(s) && Install(s, s', j)
    ensures s'.memlist != [] ==> |s'.level0| < |s'.tables| && s'.tables[|s'.level0|].flush != Finished
  {
    var b := FinishedTail(s.tables, s.memlist);
    P.TailIsFinished(s.tables, s.memlist, |s.level0|);
    FilesAreCounted(s.tables, s.memlist, b);
  }

  lemma {:induction false} FilesAreCounted(tables: seq<Table>, memlist: seq<nat>, n: nat)
    requires n <= |memlist|
    ensures |Files(tables, memlist, n)| == n
  {
    if n > 0 {
      FilesAreCounted(tables, memlist[..|memlist| - 1], n - 1);
    }
  }

  // ----- Every run -----

  ghost predicate Moves(s: State) {
    P.Inv(s) && TablesMove(s) && HandedOut(s) && FinishedMoves(s)
  }

  lemma {:induction false} InitMoves(s: State)
    requires Init(s)
    ensures TablesMove(s) && HandedOut(s) && FinishedMoves(s)
  {
  }

  lemma {:induction false} WriterMoves(s: State, s': State, w: nat)
    requires P.Inv(s) && TablesMove(s) && HandedOut(s) && FinishedMoves(s) && WriterStep(s, s', w)
    ensures TablesMove(s') && HandedOut(s') && FinishedMoves(s')
  {
    WriterKeepsTables(s, s', w);
    WriterHandsOut(s, s', w);
    WriterKeepsFinished(s, s', w);
  }

  lemma {:induction false} FlusherMoves(s: State, s': State, j: nat)
    requires P.Inv(s) && TablesMove(s) && HandedOut(s) && FinishedMoves(s) && FlusherStep(s, s', j)
    ensures TablesMove(s') && HandedOut(s') && FinishedMoves(s')
  {
    FlusherKeepsTables(s, s', j);
    FlusherCounts(s, s', j);
    FlusherKeepsFinished(s, s', j);
  }

  lemma {:induction false} RunMoves(tr: seq<State>)
    requires Run(tr) && |tr[0].writers| <= tr[0].size
    ensures Moves(Last(tr))
  {
    P.RunKeepsInv(tr);
    if |tr| == 1 {
      InitMoves(Last(tr));
    } else {
      var before := tr[..|tr| - 1];
      RunMoves(before);
      if w :| WriterStep(Last(before), Last(tr), w) {
        WriterMoves(Last(before), Last(tr), w);
      } else {
        var j :| FlusherStep(Last(before), Last(tr), j);
        FlusherMoves(Last(before), Last(tr), j);
      }
    }
  }

  // ----- Flush threads go on -----

  predicate AtWork(p: Phase, k: nat) {
    (p.Placed? || p.Inserted? || p.Counted?) && p.t == k
  }

  ghost predicate CanFlush(s: State, j: nat) {
    exists s' :: FlusherStep(s, s', j)
  }

  /** A table that holds its whole range and that no writer is at work on may be flushed, and the thread that has
      picked it can go on. */
  lemma {:induction false} FullIsAble(tr: seq<State>, k: nat)
    requires Run(tr) && |tr[0].writers| <= tr[0].size && k < |Last(tr).tables|
    requires Last(tr).tables[k].content == Range(Last(tr).tables[k])
    requires forall w :: w in Last(tr).writers ==> !AtWork(Last(tr).writers[w], k)
    ensures Last(tr).tables[k].able
    ensures forall j :: j in Last(tr).flushers && Last(tr).flushers[j] == Picked(k) ==>
              exists s' :: Build(Last(tr), s', j)
  {
    RunMoves(tr);
    TableIsAble(Last(tr), k);
    forall j | j in Last(tr).flushers && Last(tr).flushers[j] == Picked(k)
      ensures exists s' :: Build(Last(tr), s', j)
    {
      var s' := BuildHappens(Last(tr), j);
    }
  }

  lemma {:induction false} TableIsAble(s: State, k: nat)
    requires P.Tiled(s) && P.TablesOk(s) && TablesMove(s) && k < |s.tables|
    requires s.tables[k].content == Range(s.tables[k])
    requires forall w :: w in s.writers ==> !AtWork(s.writers[w], k)
    ensures s.tables[k].able
  {
    var t := s.tables[k];
    assert P.TableOk(t, s.size, s.next) && TableMoves(t, s.size, k, s.writers);
    assert t.counted == t.content;
    assert t.count == |Range(t)| == s.size;
  }

  lemma {:induction false} BuildHappens(s: State, j: nat) returns (s': State)
    requires j in s.flushers && s.flushers[j].Picked? && s.flushers[j].t < |s.tables| && s.tables[s.flushers[j].t].able
    ensures Build(s, s', j)
  {
    var p := s.flushers[j];
    s' := s.(flushers := s.flushers[j := Built(p.t, s.tables[p.t].content)]);
  }

  /** Every writer that has a number has one of the active table or beyond. */
  ghost predicate Ahead(s: State) {
    s.tables != [] && forall w :: w in s.writers && !s.writers[w].Idle? ==>
                        s.writers[w].NoTable? || s.writers[w].n >= s.tables[Active(s)].first
  }

  lemma {:induction false} FullBehind(s: State, k: nat)
    requires P.Tiled(s) && P.TablesOk(s) && P.AllAccounted(s) && HandedOut(s) && Ahead(s) && k < |s.tables| - 1
    ensures s.tables[k].content == Range(s.tables[k])
  {
    assert P.TableOk(s.tables[k], s.size, s.next);
    forall n | n in Range(s.tables[k])
      ensures n in s.tables[k].content
    {
      WrittenBehind(s, k, n);
      InOwnTable(s, k, n);
    }
  }

  lemma {:induction false} WrittenBehind(s: State, k: nat, n: nat)
    requires P.Tiled(s) && P.AllAccounted(s) && HandedOut(s) && Ahead(s) && k < |s.tables| - 1
    requires n in Range(s.tables[k])
    ensures P.Written(s, n)
  {
    P.TilesAscend(s, k, |s.tables| - 1);
    NobodyHolds(s, n);
    assert P.Accounted(s, n);
  }

  lemma {:induction false} NobodyHolds(s: State, n: nat)
    requires Ahead(s) && n < s.tables[Active(s)].first
    ensures forall w :: !P.Holds(s, w, n)
  {
  }

  lemma {:induction false} InOwnTable(s: State, k: nat, n: nat)
    requires P.Tiled(s) && P.TablesOk(s) && k < |s.tables| && n in Range(s.tables[k]) && P.Written(s, n)
    ensures n in s.tables[k].content
  {
    var m :| 0 <= m < |s.tables| && n in s.tables[m].content;
    assert P.TableOk(s.tables[m], s.size, s.next);
    OneTile(s, k, m, n);
  }

  lemma {:induction false} OneTile(s: State, k: nat, m: nat, n: nat)
    requires P.Tiled(s) && k < |s.tables| && m < |s.tables| && n in Range(s.tables[k]) && n in Range(s.tables[m])
    ensures k == m
  {
    if m < k {
      P.TilesAscend(s, m, k);
    }
    if k < m {
      P.TilesAscend(s, k, m);
    }
  }

  lemma {:induction false} NobodyBehind(s: State, k: nat)
    requires P.Tiled(s) && P.WritersOk(s) && Ahead(s) && k < |s.tables| - 1
    ensures forall w :: w in s.writers ==> !AtWork(s.writers[w], k)
  {
    P.TilesAscend(s, k, |s.tables| - 1);
    forall w | w in s.writers
      ensures !AtWork(s.writers[w], k)
    {
      assert P.WriterOk(s, w);
    }
  }

  /** While there are memtables to flush, and no writer is still busy with one of them, some flush thread can go on:
      the pipeline from the list to level 0 never gets stuck. */
  lemma {:induction false} FlushersGoOn(tr: seq<State>)
    requires Run(tr) && |tr[0].writers| <= tr[0].size
    requires Last(tr).lock == None && Ahead(Last(tr)) && Last(tr).memlist != [] && Last(tr).flushers != map[]
    ensures exists j :: CanFlush(Last(tr), j)
  {
    RunMoves(tr);
    var s := Last(tr);
    if j :| j in s.flushers && s.flushers[j] == Marked {
      InstallCan(s, j);
    } else if j :| j in s.flushers && s.flushers[j].Built? {
      MarkCan(s, j);
    } else if j :| j in s.flushers && s.flushers[j].Picked? {
      PickedIsBehind(s, j);
      AbleBehind(s, s.flushers[j].t);
      BuildCan(s, j);
    } else {
      var j :| j in s.flushers;
      PickCan(s, j);
    }
  }

  lemma {:induction false} InstallCan(s: State, j: nat)
    requires j in s.flushers && s.flushers[j] == Marked && s.lock == None
    ensures CanFlush(s, j)
  {
    var b := FinishedTail(s.tables, s.memlist);
    TailFits(s.tables, s.memlist);
    var s' := s.(flushers := s.flushers[j := Resting], memlist := s.memlist[..|s.memlist| - b], numImm := s.numImm - b,
                 level0 := s.level0 + Files(s.tables, s.memlist, b));
    assert Install(s, s', j);
    assert FlusherStep(s, s', j);
  }

  lemma {:induction false} MarkCan(s: State, j: nat)
    requires P.FlushersOk(s) && j in s.flushers && s.flushers[j].Built?
    ensures CanFlush(s, j)
  {
    assert P.FlusherOk(s, j);
    var p := s.flushers[j];
    var s' := SetTable(s, p.t, s.tables[p.t].(flush := Finished, sst := Some(p.file))).(
                flushers := s.flushers[j := Marked]);
    assert Mark(s, s', j);
    assert FlusherStep(s, s', j);
  }

  lemma {:induction false} AbleBehind(s: State, k: nat)
    requires P.Tiled(s) && P.TablesOk(s) && P.WritersOk(s) && P.AllAccounted(s) && TablesMove(s) && HandedOut(s)
    requires Ahead(s) && k < |s.tables| - 1
    ensures s.tables[k].able
  {
    FullBehind(s, k);
    NobodyBehind(s, k);
    TableIsAble(s, k);
  }

  lemma {:induction false} PickedIsBehind(s: State, j: nat)
    requires P.FlushersOk(s) && P.StatesOk(s) && j in s.flushers && s.flushers[j].Picked?
    ensures s.flushers[j].t < |s.tables| - 1
  {
    assert P.FlusherOk(s, j) && P.StateOk(s, s.flushers[j].t);
  }

  lemma {:induction false} BuildCan(s: State, j: nat)
    requires j in s.flushers && s.flushers[j].Picked? && s.flushers[j].t < |s.tables| && s.tables[s.flushers[j].t].able
    ensures CanFlush(s, j)
  {
    var s' := BuildHappens(s, j);
    assert FlusherStep(s, s', j);
  }

  /** When all flush threads rest there is a table to pick: those that were picked have been committed. */
  lemma {:induction false} PickCan(s: State, j: nat)
    requires P.ListOk(s) && P.CountersOk(s) && P.StatesOk(s) && P.FlushersOk(s) && FinishedMoves(s) && s.lock == None
    requires s.memlist != [] && j in s.flushers && forall i :: i in s.flushers ==> s.flushers[i] == Resting
    ensures CanFlush(s, j)
  {
    AllCommitted(s);
    var k := s.picked;
    var i := |s.level0| + |s.memlist| - 1 - k;
    assert s.memlist[i] == k && P.StateOk(s, k);
    var s' := SetTable(s, k, s.tables[k].(flush := Processing)).(
                notStarted := s.notStarted - 1, flushers := s.flushers[j := Picked(k)], picked := s.picked + 1);
    assert Pick(s, s', j, i);
    assert FlusherStep(s, s', j);
  }

  lemma {:induction false} AllCommitted(s: State)
    requires P.ListOk(s) && P.CountersOk(s) && P.StatesOk(s) && P.FlushersOk(s) && FinishedMoves(s) && s.lock == None
    requires forall i :: i in s.flushers ==> s.flushers[i] == Resting
    ensures s.memlist != [] ==> s.picked == |s.level0|
  {
    assert !AnyMarked(s.flushers);
    if s.memlist != [] {
      NoneProcessing(s, |s.level0|);
      assert P.StateOk(s, |s.level0|);
    }
  }

  lemma {:induction false} NoneProcessing(s: State, k: nat)
    requires P.FlushersOk(s) && k < |s.tables| && forall i :: i in s.flushers ==> s.flushers[i] == Resting
    ensures s.tables[k].flush != Processing
  {
    assert forall i :: !P.Works(s, i, k);
  }

  /** When nobody is at work every memtable but the active one is on level 0, as soon as all have been picked. */
  lemma {:induction false} QuietIsCommitted(tr: seq<State>)
    requires Run(tr) && |tr[0].writers| <= tr[0].size && Last(tr).lock == None && Last(tr).notStarted == 0
    requires forall j :: j in Last(tr).flushers ==> Last(tr).flushers[j] == Resting
    ensures Last(tr).memlist == [] && |Last(tr).level0| == |Last(tr).tables| - 1
  {
    RunMoves(tr);
    AllCommitted(Last(tr));
  }

  // ----- Writers go on -----

  /** How far a writer is from having written. */
  function Rank(s: State, w: nat): nat
    requires w in s.writers && s.tables != []
  {
    match s.writers[w]
    case Idle => 0
    case Counted(_, _) => 1
    case Inserted(_, _) => 2
    case Placed(_, _) => 3
    case Listed(_, _) => 4
    case Stored(_, _) => 5
    case Loaded(_, t) => if t == Active(s) then 6 else 7
    case Numbered(_) => 7
    case NoTable(_) => 8
  }

  /** Nobody else has the lock, and there is room for one more memtable if one has to be made. */
  ghost predicate Free(s: State, w: nat)
    requires w in s.writers && s.tables != []
  {
    && (s.lock == None || s.lock == Some(w))
    && (Rank(s, w) >= 6 ==> s.lock == None && s.numImm <= IMMUTABLE_STOP_WRITES_TRIGGER)
  }

  /** `n` is in a table, or the writer has yet to insert it. */
  ghost predicate Owed(s: State, w: nat, n: nat) {
    P.Written(s, n) || (w in s.writers && P.Before(s.writers[w]) && s.writers[w].n == n)
  }

  /** One step nearer. */
  ghost predicate Nearer(s: State, s': State, w: nat, n: nat)
    requires w in s.writers && s.tables != []
  {
    && WriterStep(s, s', w) && w in s'.writers && s'.tables != []
    && Rank(s', w) < Rank(s, w) && Free(s', w) && Owed(s', w, n)
  }

  lemma {:induction false} LoadedGoesOn(s: State, w: nat, n: nat) returns (s': State)
    requires P.Inv(s) && w in s.writers && Free(s, w) && Owed(s, w, n)
    requires s.writers[w].Loaded? && s.writers[w].t == Active(s)
    ensures Nearer(s, s', w, n)
  {
    var p, a := s.writers[w], s.tables[Active(s)];
    if InRange(a, p.n) {
      s' := SetWriter(s, w, Placed(p.n, p.t));
      assert UseLoaded(s, s', w);
      SameTables(s, s', w, n);
    } else if p.n > a.largest {
      s' := SwitchHappens(s, w, n);
    } else {
      var t := P.SearchFinds(s, w);
      s' := SetWriter(s, w, Placed(p.n, t));
      assert Search(s, s', w);
      SameTables(s, s', w, n);
    }
  }

  lemma {:induction false} SwitchHappens(s: State, w: nat, n: nat) returns (s': State)
    requires P.Tiled(s) && w in s.writers && s.writers[w].Loaded? && s.writers[w].t == Active(s)
    requires s.lock == None && s.numImm <= IMMUTABLE_STOP_WRITES_TRIGGER && Owed(s, w, n)
    requires s.writers[w].n > s.tables[Active(s)].largest
    ensures Nearer(s, s', w, n)
  {
    var p, a := s.writers[w], Active(s);
    s' := SetWriter(s, w, Stored(p.n, |s.tables|)).(
            lock := Some(w),
            tables := s.tables[a := s.tables[a].(flush := Requested)] + [NewTable(s.tables[a].largest + 1, s.size)]);
    assert Switch(s, s', w);
    if P.Written(s, n) {
      var k :| 0 <= k < |s.tables| && n in s.tables[k].content;
      assert n in s'.tables[k].content;
    }
  }

  lemma {:induction false} SameTables(s: State, s': State, w: nat, n: nat)
    requires Owed(s, w, n) && w in s.writers && w in s'.writers && s'.tables == s.tables
    requires P.Before(s.writers[w]) ==> P.Before(s'.writers[w]) && s'.writers[w].n == s.writers[w].n
    ensures Owed(s', w, n)
  {
    if P.Written(s, n) {
      var k :| 0 <= k < |s.tables| && n in s.tables[k].content;
      assert n in s'.tables[k].content;
    }
  }

  /** Tables only grow, and the writer's number is among what they hold or still its own. */
  lemma {:induction false} StillOwed(s: State, s': State, w: nat, n: nat)
    requires Owed(s, w, n) && |s'.tables| >= |s.tables| && w in s.writers && w in s'.writers
    requires forall k :: 0 <= k < |s.tables| ==> s.tables[k].content <= s'.tables[k].content
    requires P.Before(s.writers[w]) ==> P.Written(s', s.writers[w].n)
                                        || (P.Before(s'.writers[w]) && s'.writers[w].n == s.writers[w].n)
    ensures Owed(s', w, n)
  {
    if P.Written(s, n) {
      var k :| 0 <= k < |s.tables| && n in s.tables[k].content;
      assert n in s'.tables[k].content;
    }
  }

  lemma {:induction false} InsertHappens(s: State, w: nat, n: nat) returns (s': State)
    requires w in s.writers && s.writers[w].Placed? && s.writers[w].t < |s.tables| && Free(s, w) && Owed(s, w, n)
    ensures Nearer(s, s', w, n)
  {
    var p := s.writers[w];
    s' := SetTable(SetWriter(s, w, Inserted(p.n, p.t)), p.t,
                   s.tables[p.t].(content := s.tables[p.t].content + {p.n}));
    assert Insert(s, s', w);
    assert p.n in s'.tables[p.t].content;
    StillOwed(s, s', w, n);
  }

  lemma {:induction false} CountHappens(s: State, w: nat, n: nat) returns (s': State)
    requires w in s.writers && (s.writers[w].Inserted? || s.writers[w].Counted?) && s.writers[w].t < |s.tables|
    requires Free(s, w) && Owed(s, w, n)
    ensures Nearer(s, s', w, n)
  {
    var p := s.writers[w];
    var m := s.tables[p.t];
    if p.Inserted? {
      s' := SetTable(SetWriter(s, w, Counted(p.n, p.t)), p.t, m.(count := m.count + 1, counted := m.counted + {p.n}));
      assert Count(s, s', w);
    } else {
      s' := SetTable(SetWriter(s, w, Idle), p.t, m.(able := m.able || m.count >= s.size));
      assert CheckFull(s, s', w);
    }
    StillOwed(s, s', w, n);
  }

  lemma {:induction false} ListHappens(s: State, w: nat, n: nat) returns (s': State)
    requires w in s.writers && s.writers[w].Stored? && |s.tables| >= 2 && Free(s, w) && Owed(s, w, n)
    ensures Nearer(s, s', w, n)
  {
    var p := s.writers[w];
    s' := SetWriter(s, w, Listed(p.n, p.t)).(memlist := [|s.tables| - 2] + s.memlist);
    assert AddToList(s, s', w);
    SameTables(s, s', w, n);
  }

  lemma {:induction false} AnnounceHappens(s: State, w: nat, n: nat) returns (s': State)
    requires w in s.writers && s.writers[w].Listed? && |s.tables| >= 2 && Free(s, w) && Owed(s, w, n)
    ensures Nearer(s, s', w, n)
  {
    var p, o := s.writers[w], |s.tables| - 2;
    s' := SetTable(SetWriter(s, w, Placed(p.n, p.t)), o, s.tables[o].(flush := Requested)).(
            lock := None, numImm := s.numImm + 1, notStarted := s.notStarted + 1);
    assert Announce(s, s', w);
    StillOwed(s, s', w, n);
  }

  lemma {:induction false} WriterGoesOn(s: State, w: nat, n: nat) returns (s': State)
    requires P.Inv(s) && w in s.writers && Free(s, w) && Owed(s, w, n) && !s.writers[w].Idle?
    ensures Nearer(s, s', w, n)
  {
    var p := s.writers[w];
    assert P.WriterOk(s, w);
    if p.Stored? {
      s' := ListHappens(s, w, n);
    } else if p.Listed? {
      s' := AnnounceHappens(s, w, n);
    } else if p.Placed? {
      s' := InsertHappens(s, w, n);
    } else if p.Inserted? || p.Counted? {
      s' := CountHappens(s, w, n);
    } else if p.Loaded? && p.t == Active(s) {
      s' := LoadedGoesOn(s, w, n);
    } else {
      s' := SetWriter(s, w, Loaded(p.n, Active(s)));
      assert Load(s, s', w);
      SameTables(s, s', w, n);
    }
  }

  /** Steps of writer `w` alone. */
  ghost predicate Alone(run: seq<State>, w: nat) {
    forall i, j :: 0 <= i < |run| && j == i + 1 && j < |run| ==> WriterStep(run[i], run[j], w)
  }

  /** From every state a run can reach, a writer left alone with the lock free and room in the list finishes within
      eight steps, and its number is in a memtable. */
  lemma {:induction false} AloneItWrites(s: State, w: nat, n: nat) returns (run: seq<State>)
    requires P.Inv(s) && w in s.writers && Free(s, w) && Owed(s, w, n)
    ensures run != [] && run[0] == s && Alone(run, w) && |run| <= Rank(s, w) + 1
    ensures w in Last(run).writers && Last(run).writers[w].Idle? && P.Written(Last(run), n)
    decreases Rank(s, w)
  {
    if s.writers[w].Idle? {
      run := [s];
    } else {
      var s' := WriterGoesOn(s, w, n);
      assert Step(s, s');
      P.StepKeepsInv(s, s');
      var rest := AloneItWrites(s', w, n);
      run := [s] + rest;
      forall i, j | 0 <= i < |run| && j == i + 1 && j < |run|
        ensures WriterStep(run[i], run[j], w)
      {
        assert i > 0 ==> WriterStep(rest[i - 1], rest[i], w);
      }
    }
  }
}
