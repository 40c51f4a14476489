/**
 How many writers the routing of writes to memtables can take.
 */
module WritePathLimit {
  import opened Keys
  import opened WritePath
  import opened WritePathProof

  /** Every step from a state of `P` ends in one. */
  ghost predicate Closed(P: State -> bool) {
    forall s, s' {:trigger Step(s, s')} :: P(s) && Step(s, s') ==> P(s')
  }

  lemma {:induction false} Go(P: State -> bool, s: State, w: nat, s': State)
    requires Closed(P) && P(s) && WriterStep(s, s', w)
    ensures P(s')
  {
    assert Step(s, s');
  }

  ghost function AllIdle(n: nat): map<nat, Phase> {
    map w | w in Interval(0, n) :: Idle
  }

  /** The first `k` numbers are in the first table and nobody is writing. */
  ghost function AfterWrites(size: nat, n: nat, k: nat): State
    requires 0 < size && k <= size
  {
    var t := NewTable(0, size).(content := Interval(0, k), counted := Interval(0, k), count := k, able := k == size);
    State(size, k, [t], [], 0, 0, None, AllIdle(n), map[], [], 0)
  }

  /** Writer 0 takes a number and finds the first table. */
  lemma {:induction false} PlaceOnce(P: State -> bool, s: State) returns (s': State)
    requires Closed(P) && P(s) && 0 in s.writers && s.writers[0] == Idle && |s.tables| == 1
    requires InRange(s.tables[0], s.next)
    ensures P(s') && s' == SetWriter(s, 0, Placed(s.next, 0)).(next := s.next + 1)
  {
    var s1 := SetWriter(s, 0, Numbered(s.next)).(next := s.next + 1);
    assert TakeNumber(s, s1, 0);
    Go(P, s, 0, s1);
    var s2 := SetWriter(s1, 0, Loaded(s.next, 0));
    assert Load(s1, s2, 0);
    Go(P, s1, 0, s2);
    s' := SetWriter(s2, 0, Placed(s.next, 0));
    assert UseLoaded(s2, s', 0);
    Go(P, s2, 0, s');
    assert s'.writers == s.writers[0 := Placed(s.next, 0)];
  }

  lemma {:induction false} InsertOnce(P: State -> bool, s: State) returns (s': State)
    requires Closed(P) && P(s) && 0 in s.writers && s.writers[0].Placed? && s.writers[0].t == 0 && |s.tables| == 1
    ensures P(s')
    ensures var m, k := s.tables[0], s.writers[0].n;
            s' == SetWriter(s, 0, Counted(k, 0)).(tables := [
              m.(content := m.content + {k}, counted := m.counted + {k}, count := m.count + 1)])
  {
    var m, k := s.tables[0], s.writers[0].n;
    var s1 := SetTable(SetWriter(s, 0, Inserted(k, 0)), 0, m.(content := m.content + {k}));
    assert Insert(s, s1, 0);
    Go(P, s, 0, s1);
    var m1 := s1.tables[0];
    s' := SetTable(SetWriter(s1, 0, Counted(k, 0)), 0, m1.(count := m1.count + 1, counted := m1.counted + {k}));
    assert Count(s1, s', 0);
    Go(P, s1, 0, s');
    assert s'.writers == s.writers[0 := Counted(k, 0)];
  }

  lemma {:induction false} CheckOnce(size: nat, n: nat, k: nat, s: State)
    requires 0 < n && k < size && 0 in s.writers && s.writers[0] == Counted(k, 0) && s.writers[0 := Idle] == AllIdle(n)
    requires s == AfterWrites(size, n, k).(next := k + 1, writers := s.writers, tables := [NewTable(0, size).(
                    content := Interval(0, k) + {k}, counted := Interval(0, k) + {k}, count := k + 1)])
    ensures CheckFull(s, AfterWrites(size, n, k + 1), 0)
  {
    assert Interval(0, k) + {k} == Interval(0, k + 1);
  }

  /** One write by writer 0, from beginning to end. */
  lemma {:induction false} WriteOnce(P: State -> bool, size: nat, n: nat, k: nat, next: nat)
    requires Closed(P) && 0 < n && k < size && P(AfterWrites(size, n, k)) && next == k + 1
    ensures P(AfterWrites(size, n, next))
  {
    var s := PlaceOnce(P, AfterWrites(size, n, k));
    s := InsertOnce(P, s);
    CheckOnce(size, n, k, s);
    Go(P, s, 0, AfterWrites(size, n, next));
  }

  lemma {:induction false} FillFirst(P: State -> bool, size: nat, n: nat, k: nat)
    requires 0 < n && 0 < size && k <= size && Closed(P) && P(AfterWrites(size, n, 0))
    ensures P(AfterWrites(size, n, k))
  {
    if k > 0 {
      FillFirst(P, size, n, k - 1);
      WriteOnce(P, size, n, k - 1, k);
    }
  }

  /** The first table is full and the writers below `m` have taken the next numbers. */
  ghost function Waiting(size: nat, n: nat, m: nat): State
    requires 0 < size
  {
    AfterWrites(size, n, size).(next := size + m,
      writers := map w | w in Interval(0, n) :: if w < m then Numbered(size + w) else Idle)
  }

  lemma {:induction false} TakeNumbers(P: State -> bool, size: nat, n: nat, m: nat)
    requires 0 < size && 0 < n && m <= n && Closed(P) && P(AfterWrites(size, n, 0))
    ensures P(Waiting(size, n, m))
  {
    if m == 0 {
      FillFirst(P, size, n, size);
      assert Waiting(size, n, 0).writers == AllIdle(n);
    } else {
      TakeNumbers(P, size, n, m - 1);
      OneMoreWaits(size, n, m);
      Go(P, Waiting(size, n, m - 1), m - 1, Waiting(size, n, m));
    }
  }

  lemma {:induction false} OneMoreWaits(size: nat, n: nat, m: nat)
    requires 0 < size && 0 < m <= n
    ensures TakeNumber(Waiting(size, n, m - 1), Waiting(size, n, m), m - 1)
  {
    var s, s' := Waiting(size, n, m - 1), Waiting(size, n, m);
    assert s'.writers == s.writers[m - 1 := Numbered(s.next)];
  }

  lemma {:induction false} LoadOnce(P: State -> bool, s: State, w: nat) returns (s': State)
    requires Closed(P) && P(s) && w in s.writers && s.writers[w].Numbered? && |s.tables| == 1
    ensures P(s') && s' == SetWriter(s, w, Loaded(s.writers[w].n, 0))
  {
    s' := SetWriter(s, w, Loaded(s.writers[w].n, 0));
    assert Load(s, s', w);
    Go(P, s, w, s');
  }

  /** A writer whose number is above the active table switches to a new one. */
  lemma {:induction false} SwitchOnce(P: State -> bool, s: State, w: nat) returns (s': State)
    requires Closed(P) && P(s) && w in s.writers && s.writers[w].Loaded? && s.writers[w].t == 0 && |s.tables| == 1
    requires s.lock == None && s.numImm == 0 && s.size > 0 && s.writers[w].n > s.tables[0].largest
    ensures P(s') && w in s'.writers && s'.writers[w] == Placed(s.writers[w].n, 1)
    ensures |s'.tables| == 2 && s'.tables[1] == NewTable(s.tables[0].largest + 1, s.size)
  {
    var n := s.writers[w].n;
    var s2 := SetWriter(s, w, Stored(n, 1)).(
      lock := Some(w),
      tables := s.tables[0 := s.tables[0].(flush := Requested)] + [NewTable(s.tables[0].largest + 1, s.size)]);
    assert Switch(s, s2, w);
    Go(P, s, w, s2);
    var s3 := SetWriter(s2, w, Listed(n, 1)).(memlist := [0] + s2.memlist);
    assert AddToList(s2, s3, w);
    Go(P, s2, w, s3);
    s' := SetTable(SetWriter(s3, w, Placed(n, 1)), 0, s3.tables[0].(flush := Requested)).(
      lock := None, numImm := s3.numImm + 1, notStarted := s3.notStarted + 1);
    assert Announce(s3, s', w);
    Go(P, s3, w, s');
  }

  /** With one writer more than a table has numbers, the last one can be given the wrong table. */
  lemma {:induction false} Misrouted(P: State -> bool, size: nat, n: nat) returns (s': State)
    requires 0 < size < n && Closed(P) && P(AfterWrites(size, n, 0))
    ensures P(s') && !Routed(s')
  {
    TakeNumbers(P, size, n, size + 1);
    var s := LoadOnce(P, Waiting(size, n, size + 1), size);
    s' := SwitchOnce(P, s, size);
    assert !InRange(s'.tables[1], size + size);
  }

  ghost predicate Reachable(s0: State, s: State) {
    exists tr: seq<State> :: Run(tr) && tr[0] == s0 && Last(tr) == s
  }

  lemma {:induction false} ReachableIsClosed(s0: State)
    ensures Closed(s => Reachable(s0, s))
  {
    forall s, s' | Reachable(s0, s) && Step(s, s')
      ensures Reachable(s0, s')
    {
      var tr: seq<State> :| Run(tr) && tr[0] == s0 && Last(tr) == s;
      var tr' := tr + [s'];
      assert tr'[..|tr'| - 1] == tr;
      assert Last(tr') == s' && Run(tr');
    }
  }

  /** Writes always reach the memtable their number belongs to exactly when there are no more writers
      than a memtable has numbers. */
  lemma {:induction false} RoutingLimit(size: nat, n: nat)
    requires 0 < size
    ensures (forall tr: seq<State> :: Run(tr) && tr[0].size == size && |tr[0].writers| == n ==> Routed(Last(tr)))
       <==> n <= size
  {
    if n <= size {
      forall tr: seq<State> | Run(tr) && tr[0].size == size && |tr[0].writers| == n
        ensures Routed(Last(tr))
      {
        RunKeepsInv(tr);
        InvRoutes(Last(tr));
      }
    } else {
      var tr := MisroutedRun(size, n);
      assert !Routed(Last(tr));
    }
  }

  lemma {:induction false} MisroutedRun(size: nat, n: nat) returns (tr: seq<State>)
    requires 0 < size < n
    ensures Run(tr) && tr[0].size == size && |tr[0].writers| == n && !Routed(Last(tr))
  {
    var s0 := AfterWrites(size, n, 0);
    assert AllIdle(n).Keys == Interval(0, n);
    var start := [s0];
    assert Init(s0) && Run(start) && Last(start) == s0;
    ReachableIsClosed(s0);
    var s := Misrouted(s => Reachable(s0, s), size, n);
    tr :| Run(tr) && tr[0] == s0 && Last(tr) == s;
  }

  lemma {:induction false} InvRoutes(s: State)
    requires WritersOk(s)
    ensures Routed(s)
  {
    forall w | w in s.writers
      ensures !s.writers[w].NoTable?
      ensures s.writers[w].Placed? ==> s.writers[w].t < |s.tables| && InRange(s.tables[s.writers[w].t], s.writers[w].n)
    {
      assert WriterOk(s, w);
    }
  }
}
