/**
 What holds in every run of writers and flushes.
 */
module WritePathProof {
  import opened Keys
  import opened WritePath

  // ----- The invariants -----

  /** The tables' ranges follow one another without gap or overlap. */
  ghost predicate Tiled(s: State) {
    && s.size > 0 && s.tables != [] && s.tables[0].first == 0
    && (forall k :: 0 <= k < |s.tables| ==> s.tables[k].largest == s.tables[k].first + s.size - 1)
    && forall k, m :: 0 <= k < m < |s.tables| && m == k + 1 ==> s.tables[m].first == s.tables[k].largest + 1
  }

  /** A table holds only numbers meant for it, and may be flushed only once it has counted them all. */
  ghost predicate TableOk(t: Table, size: nat, next: nat) {
    && t.counted <= t.content <= Range(t) && t.count == |t.counted|
    && (forall n :: n in t.content ==> n < next)
    && (t.able ==> t.count >= size)
    && (t.flush == Finished ==> t.able && t.sst == Some(Range(t)))
  }

  ghost predicate TablesOk(s: State) {
    forall k :: 0 <= k < |s.tables| ==> TableOk(s.tables[k], s.size, s.next)
  }

  ghost predicate Written(s: State, n: nat) {
    exists k :: 0 <= k < |s.tables| && n in s.tables[k].content
  }

  /** The writer has a number it has not yet inserted. */
  predicate Before(p: Phase) {
    p.Numbered? || p.Loaded? || p.Stored? || p.Listed? || p.Placed?
  }

  predicate HoldsLock(p: Phase) {
    p.Stored? || p.Listed?
  }

  ghost predicate WriterOk(s: State, w: nat)
    requires w in s.writers
  {
    var p := s.writers[w];
    && !p.NoTable?
    && (!p.Idle? ==> p.n < s.next)
    && (Before(p) ==> !Written(s, p.n))
    && (!p.Idle? && !p.Numbered? ==> p.t < |s.tables|)
    && (p.Placed? || p.Inserted? || p.Counted? || HoldsLock(p) ==> InRange(s.tables[p.t], p.n))
    && (HoldsLock(p) ==> s.lock == Some(w) && p.t == |s.tables| - 1 && |s.tables| >= 2)
    && (p.Inserted? ==> p.n in s.tables[p.t].content && p.n !in s.tables[p.t].counted)
  }

  ghost predicate WritersOk(s: State) {
    && (forall w :: w in s.writers ==> WriterOk(s, w))
    && forall w, v :: w in s.writers && v in s.writers && w != v && !s.writers[w].Idle? && !s.writers[v].Idle?
                      ==> s.writers[w].n != s.writers[v].n
  }

  ghost predicate Holds(s: State, w: nat, n: nat) {
    w in s.writers && Before(s.writers[w]) && s.writers[w].n == n
  }

  /** Every number handed out is in a table or on its way. */
  ghost predicate Accounted(s: State, n: nat) {
    Written(s, n) || exists w :: Holds(s, w, n)
  }

  ghost predicate AllAccounted(s: State) {
    forall n: nat :: n < s.next ==> Accounted(s, n)
  }

  predicate AtStored(s: State) {
    s.lock.Some? && s.lock.value in s.writers && s.writers[s.lock.value].Stored?
  }

  predicate AtListed(s: State) {
    s.lock.Some? && s.lock.value in s.writers && s.writers[s.lock.value].Listed?
  }

  /** The committed tables come first, then those in the list, then the active one; while a switch
      is under way the old table may not be in the list yet. */
  ghost predicate ListOk(s: State) {
    && (s.lock.Some? ==> AtStored(s) || AtListed(s))
    && |s.level0| + |s.memlist| + (if AtStored(s) then 2 else 1) == |s.tables|
    && (forall i :: 0 <= i < |s.memlist| ==> s.memlist[i] == |s.level0| + |s.memlist| - 1 - i)
    && forall k :: 0 <= k < |s.level0| ==> s.level0[k] == Range(s.tables[k]) && s.tables[k].flush == Finished
  }

  /** The counters are the length of the list and the number of tables not picked, but for a table
      just listed. */
  ghost predicate CountersOk(s: State) {
    var late := if AtListed(s) then 1 else 0;
    && s.numImm == |s.memlist| - late
    && s.notStarted == |s.level0| + |s.memlist| - s.picked - late
    && s.numImm <= 16 && s.notStarted >= 0 && |s.level0| <= s.picked
    && (s.lock.Some? ==> s.numImm <= 15)
  }

  /** Tables are picked oldest first. */
  ghost predicate StateOk(s: State, k: nat)
    requires k < |s.tables|
  {
    s.tables[k].flush ==
      if k == |s.tables| - 1 then NotRequested
      else if k >= s.picked then Requested
      else if s.tables[k].flush == Finished then Finished else Processing
  }

  ghost predicate StatesOk(s: State) {
    forall k :: 0 <= k < |s.tables| ==> StateOk(s, k)
  }

  predicate Busy(p: Flusher) {
    p.Picked? || p.Built?
  }

  ghost predicate FlusherOk(s: State, j: nat)
    requires j in s.flushers
  {
    var p := s.flushers[j];
    && (Busy(p) ==> p.t < |s.tables| && p.t < s.picked && s.tables[p.t].flush == Processing)
    && (p.Built? ==> s.tables[p.t].able && p.file == Range(s.tables[p.t]))
  }

  ghost predicate Works(s: State, j: nat, k: nat) {
    j in s.flushers && Busy(s.flushers[j]) && s.flushers[j].t == k
  }

  /** Each table being flushed has exactly one flush thread. */
  ghost predicate FlushersOk(s: State) {
    && (forall j :: j in s.flushers ==> FlusherOk(s, j))
    && (forall j, i, k :: Works(s, j, k) && Works(s, i, k) ==> i == j)
    && forall k :: 0 <= k < |s.tables| && s.tables[k].flush == Processing ==> exists j :: Works(s, j, k)
  }

  ghost predicate Inv(s: State) {
    && Tiled(s) && TablesOk(s) && WritersOk(s) && AllAccounted(s) && ListOk(s) && CountersOk(s) && StatesOk(s)
    && FlushersOk(s) && |s.writers| <= s.size
  }

  // ----- Tiling -----

  lemma {:induction false} TilesAscend(s: State, i: nat, j: nat)
    requires Tiled(s) && i < j < |s.tables|
    ensures s.tables[i].largest < s.tables[j].first
  {
    if j > i + 1 {
      TilesAscend(s, i, j - 1);
    }
  }

  lemma {:induction false} FindTile(s: State, n: nat, j: nat) returns (k: nat)
    requires Tiled(s) && j < |s.tables| && n <= s.tables[j].largest
    ensures k <= j && InRange(s.tables[k], n)
  {
    k := j;
    if n < s.tables[j].first {
      assert j > 0;
      k := FindTile(s, n, j - 1);
    }
  }

  lemma {:induction false} SubsetSize(a: set<nat>, b: set<nat>)
    requires a <= b
    ensures |a| <= |b| && (|a| == |b| ==> a == b)
  {
    if a != {} {
      var x :| x in a;
      SubsetSize(a - {x}, b - {x});
    }
  }

  /** A table that may be flushed holds every number of its range. */
  lemma {:induction false} AbleIsFull(s: State, k: nat)
    requires Tiled(s) && TablesOk(s) && k < |s.tables|
    ensures s.tables[k].able ==> s.tables[k].content == Range(s.tables[k])
    ensures s.tables[k].count <= s.size
  {
    var t := s.tables[k];
    assert TableOk(t, s.size, s.next);
    SubsetSize(t.counted, Range(t));
  }

  /** A number that is not yet inserted belongs to a table that is not committed. */
  lemma {:induction false} LateNumber(s: State, n: nat, k: nat)
    requires Tiled(s) && TablesOk(s) && !Written(s, n) && k < |s.tables| && InRange(s.tables[k], n)
    ensures !s.tables[k].able && s.tables[k].flush != Finished
  {
    AbleIsFull(s, k);
    assert TableOk(s.tables[k], s.size, s.next);
  }

  // ----- Why the new table is the right one -----

  lemma {:induction false} Pigeon(s: State, ns: set<nat>, ws: set<nat>)
    requires WritersOk(s) && forall n :: n in ns ==> exists w :: w in ws && Holds(s, w, n)
    ensures |ns| <= |ws|
  {
    if ns != {} {
      var n :| n in ns;
      var w :| w in ws && Holds(s, w, n);
      forall m | m in ns - {n}
        ensures exists v :: v in ws - {w} && Holds(s, v, m)
      {
        var v :| v in ws && Holds(s, v, m);
        assert v in ws - {w};
      }
      Pigeon(s, ns - {n}, ws - {w});
    }
  }

  /** Numbers beyond the active table are all on their way. */
  lemma {:induction false} BeyondIsHeld(s: State, n: nat)
    requires Tiled(s) && TablesOk(s) && AllAccounted(s) && s.tables[Active(s)].largest < n < s.next
    ensures exists w :: w in s.writers.Keys && Holds(s, w, n)
  {
    assert Accounted(s, n);
    forall k | 0 <= k < |s.tables|
      ensures n !in s.tables[k].content
    {
      assert TableOk(s.tables[k], s.size, s.next);
      BeyondIsOutside(s, n, k);
    }
    assert !Written(s, n);
    var w :| Holds(s, w, n);
    assert w in s.writers.Keys;
  }

  lemma {:induction false} BeyondIsOutside(s: State, n: nat, k: nat)
    requires Tiled(s) && s.tables[Active(s)].largest < n && k < |s.tables|
    ensures n !in Range(s.tables[k])
  {
    if k < Active(s) {
      TilesAscend(s, k, Active(s));
    }
  }

  /** With no more writers than a table has numbers, a number beyond the active table belongs to the
      very next one. */
  lemma {:induction false} NextTableFits(s: State, n: nat)
    requires Tiled(s) && TablesOk(s) && WritersOk(s) && AllAccounted(s) && |s.writers| <= s.size
    requires s.tables[Active(s)].largest < n < s.next
    ensures n <= s.tables[Active(s)].largest + s.size
  {
    var last := s.tables[Active(s)].largest;
    assert |s.writers.Keys| == |s.writers|;
    if n > last + s.size {
      var ns := Interval(last + 1, s.size) + {n};
      forall m | m in ns
        ensures exists w :: w in s.writers.Keys && Holds(s, w, m)
      {
        BeyondIsHeld(s, m);
      }
      Pigeon(s, ns, s.writers.Keys);
    }
  }

  // ----- Steps that move one writer -----

  ghost predicate SameStore(s: State, s': State) {
    && s'.size == s.size && s'.tables == s.tables && s'.memlist == s.memlist && s'.numImm == s.numImm
    && s'.notStarted == s.notStarted && s'.lock == s.lock && s'.flushers == s.flushers && s'.level0 == s.level0
    && s'.picked == s.picked && s.next <= s'.next
  }

  lemma {:induction false} UpdateSize(m: map<nat, Phase>, w: nat, p: Phase)
    requires w in m
    ensures |m[w := p]| == |m| && m[w := p].Keys == m.Keys
  {
    assert m[w := p].Keys == m.Keys;
    assert |m[w := p].Keys| == |m.Keys|;
  }

  /** A writer that takes or keeps its number and touches nothing else. */
  lemma {:induction false} MoveKeeps(s: State, s': State, w: nat, p: Phase)
    requires Inv(s) && SameStore(s, s') && w in s.writers && s'.writers == s.writers[w := p]
    requires !HoldsLock(p) && !HoldsLock(s.writers[w]) && WriterOk(s', w)
    requires || (p.Numbered? && s.writers[w].Idle? && s'.next == s.next + 1 && p.n == s.next)
             || (Before(p) && Before(s.writers[w]) && s'.next == s.next && p.n == s.writers[w].n)
    ensures Inv(s')
  {
    UpdateSize(s.writers, w, p);
    forall k | 0 <= k < |s'.tables|
      ensures TableOk(s'.tables[k], s'.size, s'.next)
    {
      assert TableOk(s.tables[k], s.size, s.next);
    }
    MoveKeepsWriters(s, s', w, p);
    forall n: nat | n < s'.next
      ensures Accounted(s', n)
    {
      if n < s.next {
        assert Accounted(s, n);
        StillAccounted(s, s', w, n);
      } else {
        assert Holds(s', w, n);
      }
    }
    MoveKeepsFlush(s, s', w, p);
  }

  lemma {:induction false} MoveKeepsWriters(s: State, s': State, w: nat, p: Phase)
    requires WritersOk(s) && SameStore(s, s') && w in s.writers && s'.writers == s.writers[w := p]
    requires WriterOk(s', w) && !p.Idle? && (p.n == s.next || (!s.writers[w].Idle? && p.n == s.writers[w].n))
    ensures WritersOk(s')
  {
    forall v | v in s'.writers
      ensures WriterOk(s', v)
    {
      assert v != w ==> WriterOk(s, v);
      assert forall n :: Written(s, n) == Written(s', n);
    }
    assert forall v :: v in s.writers ==> WriterOk(s, v);
  }

  lemma {:induction false} StillAccounted(s: State, s': State, w: nat, n: nat)
    requires Accounted(s, n) && (Written(s, n) ==> Written(s', n))
    requires w in s.writers && s'.writers.Keys == s.writers.Keys
    requires forall v :: v in s.writers && v != w ==> s'.writers[v] == s.writers[v]
    requires Holds(s, w, n) ==> Holds(s', w, n)
    ensures Accounted(s', n)
  {
    if Written(s, n) {
      assert Written(s', n);
    } else {
      var v :| Holds(s, v, n);
      assert Holds(s', v, n);
    }
  }

  lemma {:induction false} MoveKeepsFlush(s: State, s': State, w: nat, p: Phase)
    requires ListOk(s) && CountersOk(s) && StatesOk(s) && FlushersOk(s)
    requires SameStore(s, s') && w in s.writers && s'.writers == s.writers[w := p]
    requires !HoldsLock(p) && !HoldsLock(s.writers[w])
    ensures ListOk(s') && CountersOk(s') && StatesOk(s') && FlushersOk(s')
  {
    assert AtStored(s) == AtStored(s') && AtListed(s) == AtListed(s');
    forall k | 0 <= k < |s'.tables|
      ensures StateOk(s', k)
    {
      assert StateOk(s, k);
    }
    SameFlushers(s, s');
  }

  lemma {:induction false} SameFlushers(s: State, s': State)
    requires FlushersOk(s) && s'.flushers == s.flushers && s'.tables == s.tables && s'.picked == s.picked
    ensures FlushersOk(s')
  {
    forall j | j in s'.flushers
      ensures FlusherOk(s', j)
    {
      assert FlusherOk(s, j);
    }
    forall j, i, k | Works(s', j, k) && Works(s', i, k)
      ensures i == j
    {
      assert Works(s, j, k) && Works(s, i, k);
    }
    forall k | 0 <= k < |s'.tables| && s'.tables[k].flush == Processing
      ensures exists j :: Works(s', j, k)
    {
      var j :| Works(s, j, k);
      assert Works(s', j, k);
    }
  }

  lemma {:induction false} TakeNumberKeeps(s: State, s': State, w: nat)
    requires Inv(s) && TakeNumber(s, s', w)
    ensures Inv(s')
  {
    forall k | 0 <= k < |s.tables|
      ensures s.next !in s.tables[k].content
    {
      assert TableOk(s.tables[k], s.size, s.next);
    }
    MoveKeeps(s, s', w, Numbered(s.next));
  }

  lemma {:induction false} LoadKeeps(s: State, s': State, w: nat)
    requires Inv(s) && Load(s, s', w)
    ensures Inv(s')
  {
    assert WriterOk(s, w);
    assert forall n :: Written(s, n) == Written(s', n);
    MoveKeeps(s, s', w, s'.writers[w]);
  }

  lemma {:induction false} UseLoadedKeeps(s: State, s': State, w: nat)
    requires Inv(s) && UseLoaded(s, s', w)
    ensures Inv(s')
  {
    assert WriterOk(s, w);
    assert forall n :: Written(s, n) == Written(s', n);
    MoveKeeps(s, s', w, s'.writers[w]);
  }

  /** A writer that comes late always finds its table in the list. */
  lemma {:induction false} SearchFinds(s: State, w: nat) returns (t: nat)
    requires Inv(s) && w in s.writers && s.lock == None && s.writers[w].Loaded?
    requires s.writers[w].t < |s.tables| && s.writers[w].n < s.tables[s.writers[w].t].first
    ensures t in s.memlist && t < |s.tables| && InRange(s.tables[t], s.writers[w].n)
  {
    var p := s.writers[w];
    assert WriterOk(s, w);
    t := FindTile(s, p.n, p.t);
    LateNumber(s, p.n, t);
    assert t < Active(s);
    assert t >= |s.level0|;
    assert s.memlist[|s.level0| + |s.memlist| - 1 - t] == t;
  }

  lemma {:induction false} SearchKeeps(s: State, s': State, w: nat)
    requires Inv(s) && Search(s, s', w)
    ensures Inv(s')
  {
    assert WriterOk(s, w);
    var t := SearchFinds(s, w);
    assert forall n :: Written(s, n) == Written(s', n);
    MoveKeeps(s, s', w, s'.writers[w]);
  }

  // ----- Switching the active table -----

  /** The tables keep what they hold; tables may be added, empty. */
  ghost predicate Extends(s: State, s': State) {
    && |s.tables| <= |s'.tables|
    && (forall k :: 0 <= k < |s.tables| ==>
          && s'.tables[k].first == s.tables[k].first && s'.tables[k].largest == s.tables[k].largest
          && s'.tables[k].content == s.tables[k].content && s'.tables[k].counted == s.tables[k].counted)
    && forall k :: |s.tables| <= k < |s'.tables| ==> s'.tables[k].content == {}
  }

  lemma {:induction false} ExtendsWritten(s: State, s': State, n: nat)
    requires Extends(s, s')
    ensures Written(s, n) <==> Written(s', n)
  {
    if Written(s, n) {
      var k :| 0 <= k < |s.tables| && n in s.tables[k].content;
      assert n in s'.tables[k].content;
    }
    if Written(s', n) {
      var k :| 0 <= k < |s'.tables| && n in s'.tables[k].content;
      assert n in s.tables[k].content;
    }
  }

  lemma {:induction false} ExtendsWriter(s: State, s': State, w: nat, p: Phase, v: nat)
    requires Extends(s, s') && s'.next == s.next && s'.writers == s.writers[w := p]
    requires s.lock == None || s.lock == Some(w)
    requires v in s.writers && v != w && WriterOk(s, v)
    ensures WriterOk(s', v)
  {
    if !s.writers[v].Idle? {
      ExtendsWritten(s, s', s.writers[v].n);
    }
  }

  lemma {:induction false} ExtendsWriters(s: State, s': State, w: nat, p: Phase)
    requires WritersOk(s) && AllAccounted(s) && Extends(s, s') && s'.next == s.next
    requires w in s.writers && s'.writers == s.writers[w := p]
    requires Before(s.writers[w]) && Before(p) && p.n == s.writers[w].n && WriterOk(s', w)
    requires s.lock == None || s.lock == Some(w)
    ensures WritersOk(s') && AllAccounted(s') && |s'.writers| == |s.writers|
  {
    UpdateSize(s.writers, w, p);
    forall v | v in s'.writers
      ensures WriterOk(s', v)
    {
      if v != w {
        ExtendsWriter(s, s', w, p, v);
      }
    }
    forall n: nat | n < s'.next
      ensures Accounted(s', n)
    {
      assert Accounted(s, n);
      ExtendsWritten(s, s', n);
      StillAccounted(s, s', w, n);
    }
  }

  lemma {:induction false} FlushChangeOk(t: Table, f: FlushState, size: nat, next: nat)
    requires TableOk(t, size, next) && (f == Finished ==> t.able && t.sst == Some(Range(t)))
    ensures TableOk(t.(flush := f), size, next)
  {
    assert Range(t.(flush := f)) == Range(t);
  }

  lemma {:induction false} SwitchTiles(s: State, s': State, w: nat)
    requires Tiled(s) && Switch(s, s', w)
    ensures Tiled(s')
  {
  }

  lemma {:induction false} SwitchKeepsTables(s: State, s': State, w: nat)
    requires s.tables != [] && TablesOk(s) && Switch(s, s', w)
    ensures TablesOk(s')
  {
    var a := Active(s);
    assert TableOk(s.tables[a], s.size, s.next);
    FlushChangeOk(s.tables[a], Requested, s.size, s.next);
    forall k | 0 <= k < |s'.tables|
      ensures TableOk(s'.tables[k], s'.size, s'.next)
    {
      assert k < |s.tables| ==> TableOk(s.tables[k], s.size, s.next);
    }
  }

  lemma {:induction false} SwitchKeepsStates(s: State, s': State, w: nat)
    requires ListOk(s) && CountersOk(s) && StatesOk(s) && Switch(s, s', w)
    ensures StatesOk(s')
  {
    forall k | 0 <= k < |s'.tables|
      ensures StateOk(s', k)
    {
      assert k < |s.tables| ==> StateOk(s, k);
    }
  }

  lemma {:induction false} SameTables(s: State, s': State)
    requires Tiled(s) && TablesOk(s) && StatesOk(s) && FlushersOk(s)
    requires s'.tables == s.tables && s'.size == s.size && s'.next == s.next
    requires s'.picked == s.picked && s'.flushers == s.flushers
    ensures Tiled(s') && TablesOk(s') && StatesOk(s') && FlushersOk(s')
  {
    forall k | 0 <= k < |s'.tables|
      ensures TableOk(s'.tables[k], s'.size, s'.next) && StateOk(s', k)
    {
      assert TableOk(s.tables[k], s.size, s.next) && StateOk(s, k);
    }
    SameFlushers(s, s');
  }

  lemma {:induction false} SwitchKeepsList(s: State, s': State, w: nat)
    requires ListOk(s) && CountersOk(s) && Switch(s, s', w)
    ensures ListOk(s') && CountersOk(s')
  {
    assert AtStored(s');
  }

  lemma {:induction false} SwitchKeepsFlushers(s: State, s': State, w: nat)
    requires StatesOk(s) && FlushersOk(s) && Switch(s, s', w)
    ensures FlushersOk(s')
  {
    assert StateOk(s, Active(s));
    forall j | j in s'.flushers
      ensures FlusherOk(s', j)
    {
      assert FlusherOk(s, j);
    }
    forall j, i, k | Works(s', j, k) && Works(s', i, k)
      ensures i == j
    {
      assert Works(s, j, k) && Works(s, i, k);
    }
    forall k | 0 <= k < |s'.tables| && s'.tables[k].flush == Processing
      ensures exists j :: Works(s', j, k)
    {
      var j :| Works(s, j, k);
      assert Works(s', j, k);
    }
  }

  lemma {:induction false} SwitchKeeps(s: State, s': State, w: nat)
    requires Inv(s) && Switch(s, s', w)
    ensures Inv(s')
  {
    assert WriterOk(s, w);
    var p := s.writers[w];
    NextTableFits(s, p.n);
    ExtendsWritten(s, s', p.n);
    ExtendsWriters(s, s', w, s'.writers[w]);
    SwitchTiles(s, s', w);
    SwitchKeepsTables(s, s', w);
    SwitchKeepsStates(s, s', w);
    SwitchKeepsList(s, s', w);
    SwitchKeepsFlushers(s, s', w);
  }

  lemma {:induction false} AddToListKeeps(s: State, s': State, w: nat)
    requires Inv(s) && AddToList(s, s', w)
    ensures Inv(s')
  {
    assert WriterOk(s, w);
    ExtendsWritten(s, s', s.writers[w].n);
    ExtendsWriters(s, s', w, s'.writers[w]);
    assert AtStored(s) && AtListed(s') && !AtStored(s');
    SameTables(s, s');
  }

  lemma {:induction false} AnnounceKeepsList(s: State, s': State, w: nat)
    requires ListOk(s) && CountersOk(s) && w in s.writers && WriterOk(s, w)
    requires Announce(s, s', w) && s'.tables == s.tables
    ensures ListOk(s') && CountersOk(s')
  {
    assert AtListed(s) && !AtStored(s);
  }

  lemma {:induction false} AnnounceSameTables(s: State, s': State, w: nat)
    requires ListOk(s) && CountersOk(s) && StatesOk(s) && w in s.writers && WriterOk(s, w) && Announce(s, s', w)
    ensures s'.tables == s.tables
  {
    assert AtListed(s) && !AtStored(s);
    assert StateOk(s, |s.tables| - 2);
  }

  lemma {:induction false} AnnounceKeeps(s: State, s': State, w: nat)
    requires Inv(s) && Announce(s, s', w)
    ensures Inv(s')
  {
    assert WriterOk(s, w);
    AnnounceSameTables(s, s', w);
    AnnounceWriters(s, s', w);
    AnnounceKeepsList(s, s', w);
    SameTables(s, s');
  }

  lemma {:induction false} AnnounceWriters(s: State, s': State, w: nat)
    requires Inv(s) && Announce(s, s', w) && s'.tables == s.tables
    ensures WritersOk(s') && AllAccounted(s') && |s'.writers| == |s.writers|
  {
    assert WriterOk(s, w);
    ExtendsWritten(s, s', s.writers[w].n);
    ExtendsWriters(s, s', w, s'.writers[w]);
  }

  // ----- Filling a table -----

  /** One table changed; its range, flush state and file did not. */
  ghost predicate Filled(s: State, s': State, t: nat) {
    && t < |s.tables| == |s'.tables|
    && (forall k :: 0 <= k < |s.tables| && k != t ==> s'.tables[k] == s.tables[k])
    && var m, m' := s.tables[t], s'.tables[t];
    && m'.first == m.first && m'.largest == m.largest && m'.flush == m.flush && m'.sst == m.sst
    && m.content <= m'.content && (m.able ==> m'.able)
    && s'.size == s.size && s'.next == s.next && s'.memlist == s.memlist && s'.numImm == s.numImm
    && s'.notStarted == s.notStarted && s'.lock == s.lock && s'.flushers == s.flushers && s'.level0 == s.level0
    && s'.picked == s.picked
  }

  lemma {:induction false} FilledKeepsTables(s: State, s': State, t: nat)
    requires Tiled(s) && TablesOk(s) && Filled(s, s', t) && TableOk(s'.tables[t], s.size, s.next)
    ensures Tiled(s') && TablesOk(s')
  {
    forall k | 0 <= k < |s'.tables|
      ensures TableOk(s'.tables[k], s'.size, s'.next)
    {
      assert TableOk(s.tables[k], s.size, s.next);
    }
  }

  lemma {:induction false} FilledKeepsFlush(s: State, s': State, t: nat, w: nat, p: Phase)
    requires ListOk(s) && CountersOk(s) && StatesOk(s) && FlushersOk(s) && Filled(s, s', t)
    requires w in s.writers && !HoldsLock(s.writers[w]) && !HoldsLock(p) && s'.writers == s.writers[w := p]
    ensures ListOk(s') && CountersOk(s') && StatesOk(s') && FlushersOk(s')
  {
    assert AtStored(s) == AtStored(s') && AtListed(s) == AtListed(s');
    forall k | 0 <= k < |s'.tables|
      ensures StateOk(s', k) && Range(s'.tables[k]) == Range(s.tables[k])
    {
      assert StateOk(s, k);
    }
    FilledKeepsFlushers(s, s', t);
  }

  lemma {:induction false} FilledKeepsFlushers(s: State, s': State, t: nat)
    requires FlushersOk(s) && Filled(s, s', t)
    ensures FlushersOk(s')
  {
    forall j | j in s'.flushers
      ensures FlusherOk(s', j)
    {
      assert FlusherOk(s, j);
    }
    forall j, i, k | Works(s', j, k) && Works(s', i, k)
      ensures i == j
    {
      assert Works(s, j, k) && Works(s, i, k);
    }
    forall k | 0 <= k < |s'.tables| && s'.tables[k].flush == Processing
      ensures exists j :: Works(s', j, k)
    {
      var j :| Works(s, j, k);
      assert Works(s', j, k);
    }
  }

  lemma {:induction false} FilledWritten(s: State, s': State, t: nat, n: nat)
    requires Filled(s, s', t)
    ensures Written(s, n) ==> Written(s', n)
    ensures Written(s', n) ==> Written(s, n) || n in s'.tables[t].content - s.tables[t].content
  {
    if Written(s, n) {
      var k :| 0 <= k < |s.tables| && n in s.tables[k].content;
      assert n in s'.tables[k].content;
    }
    if Written(s', n) {
      var k :| 0 <= k < |s'.tables| && n in s'.tables[k].content;
      assert k != t ==> n in s.tables[k].content;
    }
  }

  /** The other writers do not mind what writer `w` does to its own number's table. */
  lemma {:induction false} FilledKeepsWriter(s: State, s': State, t: nat, w: nat, v: nat)
    requires WritersOk(s) && Filled(s, s', t) && w in s.writers && v in s.writers && v != w && !s.writers[w].Idle?
    requires s'.writers.Keys == s.writers.Keys && s'.writers[v] == s.writers[v]
    requires s'.tables[t].content <= s.tables[t].content + {s.writers[w].n}
    requires s'.tables[t].counted <= s.tables[t].counted + {s.writers[w].n}
    ensures WriterOk(s', v)
  {
    assert WriterOk(s, v);
    if !s.writers[v].Idle? {
      FilledWritten(s, s', t, s.writers[v].n);
    }
  }

  lemma {:induction false} FilledKeepsWriters(s: State, s': State, t: nat, w: nat, p: Phase)
    requires WritersOk(s) && AllAccounted(s) && Filled(s, s', t) && w in s.writers && s'.writers == s.writers[w := p]
    requires !s.writers[w].Idle? && (p.Idle? || p.n == s.writers[w].n)
    requires s'.tables[t].content <= s.tables[t].content + {s.writers[w].n}
    requires s'.tables[t].counted <= s.tables[t].counted + {s.writers[w].n}
    requires Before(s.writers[w]) ==> Before(p) || s.writers[w].n in s'.tables[t].content
    requires WriterOk(s', w)
    ensures WritersOk(s') && AllAccounted(s') && |s'.writers| == |s.writers|
  {
    UpdateSize(s.writers, w, p);
    forall v | v in s'.writers
      ensures WriterOk(s', v)
    {
      if v != w {
        FilledKeepsWriter(s, s', t, w, v);
      }
    }
    forall n: nat | n < s'.next
      ensures Accounted(s', n)
    {
      assert Accounted(s, n);
      FilledWritten(s, s', t, n);
      if Holds(s, w, n) && !Before(p) {
        assert n in s'.tables[t].content;
        assert Written(s', n);
      } else {
        StillAccounted(s, s', w, n);
      }
    }
  }

  lemma {:induction false} InsertFills(s: State, s': State, w: nat)
    requires TablesOk(s) && w in s.writers && WriterOk(s, w) && Insert(s, s', w)
    ensures var t := s.writers[w].t; Filled(s, s', t) && TableOk(s'.tables[t], s.size, s.next)
    ensures WriterOk(s', w)
  {
    var p := s.writers[w];
    var m, m' := s.tables[p.t], s'.tables[p.t];
    assert TableOk(m, s.size, s.next);
    assert p.n !in m.content;
    assert Range(m') == Range(m);
  }

  lemma {:induction false} InsertKeeps(s: State, s': State, w: nat)
    requires Inv(s) && Insert(s, s', w)
    ensures Inv(s')
  {
    var p := s.writers[w];
    assert WriterOk(s, w);
    InsertFills(s, s', w);
    FilledKeepsTables(s, s', p.t);
    FilledKeepsWriters(s, s', p.t, w, s'.writers[w]);
    FilledKeepsFlush(s, s', p.t, w, s'.writers[w]);
  }

  lemma {:induction false} CountFills(s: State, s': State, w: nat)
    requires TablesOk(s) && w in s.writers && WriterOk(s, w) && Count(s, s', w)
    ensures var t := s.writers[w].t; Filled(s, s', t) && TableOk(s'.tables[t], s.size, s.next)
    ensures WriterOk(s', w)
  {
    var p := s.writers[w];
    var m, m' := s.tables[p.t], s'.tables[p.t];
    assert TableOk(m, s.size, s.next);
    assert Range(m') == Range(m);
  }

  lemma {:induction false} CountKeeps(s: State, s': State, w: nat)
    requires Inv(s) && Count(s, s', w)
    ensures Inv(s')
  {
    var p := s.writers[w];
    assert WriterOk(s, w);
    CountFills(s, s', w);
    FilledKeepsTables(s, s', p.t);
    FilledKeepsWriters(s, s', p.t, w, s'.writers[w]);
    FilledKeepsFlush(s, s', p.t, w, s'.writers[w]);
  }

  lemma {:induction false} CheckFullKeeps(s: State, s': State, w: nat)
    requires Inv(s) && CheckFull(s, s', w)
    ensures Inv(s')
  {
    var p := s.writers[w];
    assert WriterOk(s, w) && TableOk(s.tables[p.t], s.size, s.next);
    CheckFullFills(s, s', w);
    FilledKeepsTables(s, s', p.t);
    FilledKeepsWriters(s, s', p.t, w, s'.writers[w]);
    FilledKeepsFlush(s, s', p.t, w, s'.writers[w]);
  }

  lemma {:induction false} CheckFullFills(s: State, s': State, w: nat)
    requires CheckFull(s, s', w) && TableOk(s.tables[s.writers[w].t], s.size, s.next)
    ensures Filled(s, s', s.writers[w].t) && TableOk(s'.tables[s.writers[w].t], s.size, s.next)
    ensures s'.tables[s.writers[w].t].content == s.tables[s.writers[w].t].content
  {
  }

  // ----- Flushing -----

  /** The table found is the first one not picked so far. */
  lemma {:induction false} PickIsNext(s: State, s': State, j: nat, i: nat)
    requires ListOk(s) && CountersOk(s) && StatesOk(s) && Pick(s, s', j, i)
    ensures s.memlist[i] == s.picked < |s.tables| - 1
  {
    var t := s.memlist[i];
    var k := |s.level0| + |s.memlist| - 1 - s.picked;
    assert s.memlist[k] == s.picked;
    assert StateOk(s, t) && StateOk(s, s.picked);
  }

  lemma {:induction false} SameWriters(s: State, s': State)
    requires WritersOk(s) && AllAccounted(s) && Extends(s, s') && |s'.tables| == |s.tables|
    requires s'.writers == s.writers && s'.next == s.next && s'.lock == s.lock
    ensures WritersOk(s') && AllAccounted(s')
  {
    forall v | v in s'.writers
      ensures WriterOk(s', v)
    {
      assert WriterOk(s, v);
      if !s.writers[v].Idle? {
        ExtendsWritten(s, s', s.writers[v].n);
      }
    }
    forall n: nat | n < s'.next
      ensures Accounted(s', n)
    {
      assert Accounted(s, n);
      ExtendsWritten(s, s', n);
      if !Written(s, n) {
        var v :| Holds(s, v, n);
        assert Holds(s', v, n);
      }
    }
  }

  lemma {:induction false} PickKeeps(s: State, s': State, j: nat, i: nat)
    requires Inv(s) && Pick(s, s', j, i)
    ensures Inv(s')
  {
    PickIsNext(s, s', j, i);
    SameWriters(s, s');
    PickKeepsTables(s, s', j, i);
    PickKeepsFlushers(s, s', j, i);
  }

  /** Replacing one table by another of its range. */
  lemma {:induction false} OneTableChanged(s: State, s': State, t: nat, m: Table)
    requires Tiled(s) && TablesOk(s) && t < |s.tables| && s'.tables == s.tables[t := m]
    requires m.first == s.tables[t].first && m.largest == s.tables[t].largest && TableOk(m, s.size, s.next)
    requires s'.size == s.size && s'.next == s.next
    ensures Tiled(s') && TablesOk(s')
  {
    forall k | 0 <= k < |s'.tables|
      ensures TableOk(s'.tables[k], s'.size, s'.next)
    {
      assert k != t ==> TableOk(s.tables[k], s.size, s.next);
    }
  }

  lemma {:induction false} PickKeepsList(s: State, s': State, j: nat, i: nat)
    requires ListOk(s) && CountersOk(s) && Pick(s, s', j, i) && s.memlist[i] == s.picked
    ensures ListOk(s') && CountersOk(s')
  {
    assert AtStored(s) == AtStored(s') && AtListed(s) == AtListed(s');
    assert |s.level0| <= s.picked;
  }

  lemma {:induction false} PickKeepsStates(s: State, s': State, t: nat)
    requires StatesOk(s) && t == s.picked < |s.tables| - 1 && s'.picked == t + 1
    requires s'.tables == s.tables[t := s.tables[t].(flush := Processing)]
    ensures StatesOk(s')
  {
    forall k | 0 <= k < |s'.tables|
      ensures StateOk(s', k)
    {
      assert StateOk(s, k);
    }
  }

  lemma {:induction false} PickKeepsTables(s: State, s': State, j: nat, i: nat)
    requires Tiled(s) && TablesOk(s) && ListOk(s) && CountersOk(s) && StatesOk(s) && Pick(s, s', j, i)
    requires s.memlist[i] == s.picked < |s.tables| - 1
    ensures Tiled(s') && TablesOk(s') && ListOk(s') && CountersOk(s') && StatesOk(s')
  {
    var t := s.picked;
    assert TableOk(s.tables[t], s.size, s.next);
    FlushChangeOk(s.tables[t], Processing, s.size, s.next);
    OneTableChanged(s, s', t, s'.tables[t]);
    PickKeepsList(s, s', j, i);
    PickKeepsStates(s, s', t);
  }

  lemma {:induction false} PickKeepsFlushers(s: State, s': State, j: nat, i: nat)
    requires FlushersOk(s) && StatesOk(s) && Pick(s, s', j, i) && s.memlist[i] == s.picked
    ensures FlushersOk(s')
  {
    forall h | h in s'.flushers
      ensures FlusherOk(s', h)
    {
      assert h != j ==> FlusherOk(s, h);
    }
    forall h, g, k | Works(s', h, k) && Works(s', g, k)
      ensures g == h
    {
      assert h != j ==> Works(s, h, k) && FlusherOk(s, h);
      assert g != j ==> Works(s, g, k) && FlusherOk(s, g);
    }
    forall k | 0 <= k < |s'.tables| && s'.tables[k].flush == Processing
      ensures exists h :: Works(s', h, k)
    {
      if k == s.picked {
        assert Works(s', j, k);
      } else {
        var h :| Works(s, h, k);
        assert Works(s', h, k);
      }
    }
  }

  /** What is written out is exactly the table's range. */
  lemma {:induction false} BuildIsComplete(s: State, s': State, j: nat)
    requires Inv(s) && Build(s, s', j)
    ensures s'.flushers[j] == Built(s.flushers[j].t, Range(s.tables[s.flushers[j].t]))
  {
    AbleIsFull(s, s.flushers[j].t);
  }

  lemma {:induction false} BuildKeepsFlushers(s: State, s': State, j: nat)
    requires FlushersOk(s) && Build(s, s', j)
    requires s'.flushers[j] == Built(s.flushers[j].t, Range(s.tables[s.flushers[j].t]))
    ensures FlushersOk(s')
  {
    assert forall h, k :: Works(s', h, k) <==> Works(s, h, k);
    forall h | h in s'.flushers
      ensures FlusherOk(s', h)
    {
      assert FlusherOk(s, h);
    }
    forall k | 0 <= k < |s'.tables| && s'.tables[k].flush == Processing
      ensures exists h :: Works(s', h, k)
    {
      var h :| Works(s, h, k);
      assert Works(s', h, k);
    }
  }

  lemma {:induction false} BuildKeeps(s: State, s': State, j: nat)
    requires Inv(s) && Build(s, s', j)
    ensures Inv(s')
  {
    BuildIsComplete(s, s', j);
    BuildKeepsFlushers(s, s', j);
    SameWriters(s, s');
    assert AtStored(s) == AtStored(s') && AtListed(s) == AtListed(s');
    forall k | 0 <= k < |s'.tables|
      ensures TableOk(s'.tables[k], s'.size, s'.next) && StateOk(s', k)
    {
      assert TableOk(s.tables[k], s.size, s.next) && StateOk(s, k);
    }
  }

  lemma {:induction false} MarkKeepsTables(s: State, s': State, j: nat)
    requires Tiled(s) && TablesOk(s) && Mark(s, s', j) && FlusherOk(s, j)
    ensures Tiled(s') && TablesOk(s')
  {
    var p := s.flushers[j];
    assert TableOk(s.tables[p.t], s.size, s.next);
    FlushChangeOk(s.tables[p.t].(sst := Some(p.file)), Finished, s.size, s.next);
    OneTableChanged(s, s', p.t, s'.tables[p.t]);
  }

  lemma {:induction false} MarkKeepsList(s: State, s': State, j: nat)
    requires ListOk(s) && CountersOk(s) && StatesOk(s) && Mark(s, s', j) && FlusherOk(s, j)
    ensures ListOk(s') && CountersOk(s') && StatesOk(s')
  {
    assert AtStored(s) == AtStored(s') && AtListed(s) == AtListed(s');
    assert StateOk(s, s.flushers[j].t);
    forall k | 0 <= k < |s'.tables|
      ensures StateOk(s', k) && Range(s'.tables[k]) == Range(s.tables[k])
    {
      assert StateOk(s, k);
    }
  }

  lemma {:induction false} MarkKeepsFlushers(s: State, s': State, j: nat)
    requires FlushersOk(s) && Mark(s, s', j)
    ensures FlushersOk(s')
  {
    var t := s.flushers[j].t;
    assert Works(s, j, t);
    assert forall h, k :: Works(s', h, k) <==> Works(s, h, k) && h != j;
    forall h | h in s'.flushers
      ensures FlusherOk(s', h)
    {
      assert FlusherOk(s, h);
      assert Busy(s.flushers[h]) ==> Works(s, h, s.flushers[h].t);
    }
    forall k | 0 <= k < |s'.tables| && s'.tables[k].flush == Processing
      ensures exists h :: Works(s', h, k)
    {
      var h :| Works(s, h, k);
      assert Works(s', h, k);
    }
  }

  lemma {:induction false} MarkKeeps(s: State, s': State, j: nat)
    requires Inv(s) && Mark(s, s', j)
    ensures Inv(s')
  {
    assert FlusherOk(s, j);
    MarkKeepsTables(s, s', j);
    MarkKeepsList(s, s', j);
    MarkKeepsFlushers(s, s', j);
    SameWriters(s, s');
  }

  /** The finished tail of the list, oldest first. */
  lemma {:induction false} TailIsFinished(tables: seq<Table>, memlist: seq<nat>, lo: nat)
    requires lo + |memlist| <= |tables| && forall i :: 0 <= i < |memlist| ==> memlist[i] == lo + |memlist| - 1 - i
    ensures FinishedTail(tables, memlist) <= |memlist|
    ensures forall k :: lo <= k < lo + FinishedTail(tables, memlist) ==> tables[k].flush == Finished
    ensures lo + FinishedTail(tables, memlist) < lo + |memlist| ==>
              tables[lo + FinishedTail(tables, memlist)].flush != Finished
  {
    if memlist != [] {
      TailIsFinished(tables, memlist[..|memlist| - 1], lo + 1);
    }
  }

  lemma {:induction false} FilesAre(tables: seq<Table>, memlist: seq<nat>, lo: nat, n: nat)
    requires lo + |memlist| <= |tables| && forall i :: 0 <= i < |memlist| ==> memlist[i] == lo + |memlist| - 1 - i
    requires n <= |memlist| && forall k :: lo <= k < lo + n ==> tables[k].sst.Some?
    ensures |Files(tables, memlist, n)| == n
    ensures forall q, k :: 0 <= q < n && k == lo + q ==> Files(tables, memlist, n)[q] == tables[k].sst.value
  {
    if n > 0 {
      FilesAre(tables, memlist[..|memlist| - 1], lo + 1, n - 1);
      assert memlist[|memlist| - 1] == lo;
    }
  }

  lemma {:induction false} FinishedFiles(s: State, b: nat)
    requires TablesOk(s) && StatesOk(s) && |s.level0| + b <= |s.tables|
    requires forall k :: |s.level0| <= k < |s.level0| + b ==> s.tables[k].flush == Finished
    ensures forall k :: |s.level0| <= k < |s.level0| + b ==> s.tables[k].sst == Some(Range(s.tables[k])) && k < s.picked
  {
    forall k | |s.level0| <= k < |s.level0| + b
      ensures s.tables[k].sst == Some(Range(s.tables[k])) && k < s.picked
    {
      assert TableOk(s.tables[k], s.size, s.next) && StateOk(s, k);
    }
  }

  lemma {:induction false} InstallKeepsList(s: State, s': State, j: nat)
    requires TablesOk(s) && ListOk(s) && CountersOk(s) && StatesOk(s) && Install(s, s', j)
    ensures ListOk(s') && CountersOk(s')
  {
    var lo, b := |s.level0|, FinishedTail(s.tables, s.memlist);
    assert !AtStored(s) && !AtListed(s) && !AtStored(s') && !AtListed(s');
    TailIsFinished(s.tables, s.memlist, lo);
    FinishedFiles(s, b);
    assert b > 0 ==> s.tables[lo + b - 1].sst.Some?;
    FilesAre(s.tables, s.memlist, lo, b);
    forall k | 0 <= k < |s'.level0|
      ensures s'.level0[k] == Range(s'.tables[k]) && s'.tables[k].flush == Finished
    {
      assert k >= lo ==> s'.level0[k] == Files(s.tables, s.memlist, b)[k - lo];
    }
  }

  lemma {:induction false} InstallKeeps(s: State, s': State, j: nat)
    requires Inv(s) && Install(s, s', j)
    ensures Inv(s')
  {
    InstallKeepsList(s, s', j);
    SameWriters(s, s');
    InstallKeepsFlushers(s, s', j);
    forall k | 0 <= k < |s'.tables|
      ensures TableOk(s'.tables[k], s'.size, s'.next) && StateOk(s', k)
    {
      assert TableOk(s.tables[k], s.size, s.next) && StateOk(s, k);
    }
  }

  lemma {:induction false} InstallKeepsFlushers(s: State, s': State, j: nat)
    requires FlushersOk(s) && Install(s, s', j)
    ensures FlushersOk(s')
  {
    assert forall h, k :: Works(s', h, k) <==> Works(s, h, k);
    forall h | h in s'.flushers
      ensures FlusherOk(s', h)
    {
      assert FlusherOk(s, h);
    }
    forall k | 0 <= k < |s'.tables| && s'.tables[k].flush == Processing
      ensures exists h :: Works(s', h, k)
    {
      var h :| Works(s, h, k);
      assert Works(s', h, k);
    }
  }

  // ----- Every run -----

  lemma {:induction false} InitHasInv(s: State)
    requires Init(s) && |s.writers| <= s.size
    ensures Inv(s)
  {
    assert TableOk(s.tables[0], s.size, s.next);
    assert StateOk(s, 0);
  }

  lemma {:induction false} StepKeepsInv(s: State, s': State)
    requires Inv(s) && Step(s, s')
    ensures Inv(s')
  {
    if w :| WriterStep(s, s', w) {
      WriterStepKeeps(s, s', w);
    } else {
      var j :| FlusherStep(s, s', j);
      if i :| Pick(s, s', j, i) {
        PickKeeps(s, s', j, i);
      } else if Build(s, s', j) {
        BuildKeeps(s, s', j);
      } else if Mark(s, s', j) {
        MarkKeeps(s, s', j);
      } else {
        InstallKeeps(s, s', j);
      }
    }
  }

  lemma {:induction false} WriterStepKeeps(s: State, s': State, w: nat)
    requires Inv(s) && WriterStep(s, s', w)
    ensures Inv(s')
  {
    if TakeNumber(s, s', w) {
      TakeNumberKeeps(s, s', w);
    } else if Load(s, s', w) {
      LoadKeeps(s, s', w);
    } else if UseLoaded(s, s', w) {
      UseLoadedKeeps(s, s', w);
    } else if Switch(s, s', w) {
      SwitchKeeps(s, s', w);
    } else if AddToList(s, s', w) {
      AddToListKeeps(s, s', w);
    } else if Announce(s, s', w) {
      AnnounceKeeps(s, s', w);
    } else if Search(s, s', w) {
      SearchKeeps(s, s', w);
    } else if Insert(s, s', w) {
      InsertKeeps(s, s', w);
    } else if Count(s, s', w) {
      CountKeeps(s, s', w);
    } else {
      CheckFullKeeps(s, s', w);
    }
  }

  lemma {:induction false} RunKeepsInv(tr: seq<State>)
    requires Run(tr) && |tr[0].writers| <= tr[0].size
    ensures Inv(Last(tr))
  {
    if |tr| == 1 {
      InitHasInv(Last(tr));
    } else {
      var before := tr[..|tr| - 1];
      RunKeepsInv(before);
      StepKeepsInv(Last(before), Last(tr));
    }
  }

  // ----- What the invariants mean -----

  /** Every writer that has a table has the one its number belongs to. */
  ghost predicate Routed(s: State) {
    forall w :: w in s.writers ==>
      && !s.writers[w].NoTable?
      && (s.writers[w].Placed? ==> s.writers[w].t < |s.tables| && InRange(s.tables[s.writers[w].t], s.writers[w].n))
  }

  /** Level 0 holds the tables in the order they were made, each whole and once; the list holds the
      rest, and whatever is still to come has a larger number than everything on level 0. */
  lemma {:induction false} CommittedInOrder(tr: seq<State>)
    requires Run(tr) && |tr[0].writers| <= tr[0].size
    ensures var s := Last(tr);
            && (forall k :: 0 <= k < |s.level0| ==> s.level0[k] == Interval(k * s.size, s.size))
            && (forall t, k, n :: t in s.memlist && 0 <= k < |s.level0| && n in s.level0[k] ==>
                  t < |s.tables| && n < s.tables[t].first)
            && forall n, k :: !Written(s, n) && 0 <= k < |s.level0| ==> n !in s.level0[k]
  {
    RunKeepsInv(tr);
    LevelZeroInOrder(Last(tr));
  }

  lemma {:induction false} LevelZeroInOrder(s: State)
    requires Tiled(s) && TablesOk(s) && ListOk(s)
    ensures forall k :: 0 <= k < |s.level0| ==> s.level0[k] == Interval(k * s.size, s.size)
    ensures forall t, k, n :: t in s.memlist && 0 <= k < |s.level0| && n in s.level0[k] ==>
              t < |s.tables| && n < s.tables[t].first
    ensures forall n, k :: !Written(s, n) && 0 <= k < |s.level0| ==> n !in s.level0[k]
  {
    forall k | 0 <= k < |s.level0|
      ensures s.level0[k] == Interval(k * s.size, s.size)
    {
      TileAt(s, k);
    }
    forall t, k, n | t in s.memlist && 0 <= k < |s.level0| && n in s.level0[k]
      ensures t < |s.tables| && n < s.tables[t].first
    {
      ListIsAbove(s, t, k, n);
    }
    forall n, k | !Written(s, n) && 0 <= k < |s.level0|
      ensures n !in s.level0[k]
    {
      LateIsAbove(s, k, n);
    }
  }

  lemma {:induction false} ListIsAbove(s: State, t: nat, k: nat, n: nat)
    requires Tiled(s) && ListOk(s) && t in s.memlist && k < |s.level0| && n in s.level0[k]
    ensures t < |s.tables| && n < s.tables[t].first
  {
    TilesAscend(s, k, t);
  }

  lemma {:induction false} LateIsAbove(s: State, k: nat, n: nat)
    requires Tiled(s) && TablesOk(s) && ListOk(s) && !Written(s, n) && k < |s.level0|
    ensures n !in s.level0[k]
  {
    if InRange(s.tables[k], n) {
      LateNumber(s, n, k);
    }
  }

  lemma {:induction false} TileAt(s: State, k: nat)
    requires Tiled(s) && k < |s.tables|
    ensures s.tables[k].first == k * s.size && Range(s.tables[k]) == Interval(k * s.size, s.size)
  {
    if k > 0 {
      TileAt(s, k - 1);
      assert (k - 1) * s.size + s.size == k * s.size;
    }
  }

  /** Between switches the counters are exact, and the list never holds more than one table beyond the
      limit at which writers stop. */
  lemma {:induction false} CountersExact(tr: seq<State>)
    requires Run(tr) && |tr[0].writers| <= tr[0].size && Last(tr).lock == None
    ensures var s := Last(tr);
            && s.numImm == |s.memlist| <= IMMUTABLE_STOP_WRITES_TRIGGER + 1
            && s.notStarted == |set t | t in s.memlist && t < |s.tables| && s.tables[t].flush == Requested|
  {
    RunKeepsInv(tr);
    var s := Last(tr);
    var hi := |s.level0| + |s.memlist|;
    forall t: nat
      ensures t in s.memlist && t < |s.tables| && s.tables[t].flush == Requested
         <==> t in Interval(s.picked, hi - s.picked)
    {
      if |s.level0| <= t < hi {
        assert s.memlist[hi - 1 - t] == t;
        assert StateOk(s, t);
      }
    }
    assert (set t | t in s.memlist && t < |s.tables| && s.tables[t].flush == Requested) ==
             Interval(s.picked, hi - s.picked);
  }

  /** No writer is about to insert into a table whose flush may have read it. */
  lemma {:induction false} NoLateInsert(tr: seq<State>, w: nat)
    requires Run(tr) && |tr[0].writers| <= tr[0].size && w in Last(tr).writers && Last(tr).writers[w].Placed?
    ensures var s := Last(tr);
            var t := s.writers[w].t;
            && t < |s.tables| && !s.tables[t].able && s.tables[t].flush != Finished
            && forall j :: j in s.flushers && s.flushers[j].Built? ==> s.flushers[j].t != t
  {
    RunKeepsInv(tr);
    var s := Last(tr);
    assert WriterOk(s, w);
    LateNumber(s, s.writers[w].n, s.writers[w].t);
    assert forall j :: j in s.flushers ==> FlusherOk(s, j);
  }
}
