/**
 Writers and flushes: how concurrent writers find the memtable their sequence number belongs to,
 and how full memtables become level-0 files in order.

 A step is one atomic operation or one critical section.  Two mutexes matter: the one that guards
 the switch of the active memtable and the list of immutable ones (`lock`), and the one that guards
 picking a memtable to flush (Pick is a single step).
 */
module WritePath {
  import opened Keys

  const IMMUTABLE_STOP_WRITES_TRIGGER := 15

  datatype FlushState = NotRequested | Requested | Processing | Finished

  /** A memtable.  It is meant for the numbers first..largest; `content` holds those inserted and
      `count` is its atomic counter.  `counted` records whose increments it has seen. */
  datatype Table = Table(
    first: nat, largest: nat, content: set<nat>, counted: set<nat>, count: nat, able: bool,
    flush: FlushState, sst: Option<set<nat>>)

  /** Where a writer stands.  Stored and Listed hold the lock: the new table is the active one, and
      then the old one is also in the list.  NoTable is a null memtable pointer in use. */
  datatype Phase =
    | Idle
    | Numbered(n: nat)
    | Loaded(n: nat, t: nat)
    | Stored(n: nat, t: nat)
    | Listed(n: nat, t: nat)
    | Placed(n: nat, t: nat)
    | Inserted(n: nat, t: nat)
    | Counted(n: nat, t: nat)
    | NoTable(n: nat)

  datatype Flusher = Resting | Picked(t: nat) | Built(t: nat, file: set<nat>) | Marked

  /** `tables` holds every memtable ever made; the last is the active one.  `memlist` names the
      immutable ones, newest first, and `picked` counts the tables picked so far. */
  datatype State = State(
    size: nat,
    next: nat,
    tables: seq<Table>,
    memlist: seq<nat>,
    numImm: int,
    notStarted: int,
    lock: Option<nat>,
    writers: map<nat, Phase>,
    flushers: map<nat, Flusher>,
    level0: seq<set<nat>>,
    picked: nat)

  predicate InRange(t: Table, n: nat) {
    t.first <= n <= t.largest
  }

  /** The `len` numbers from `first` on. */
  ghost function Interval(first: nat, len: nat): (r: set<nat>)
    ensures |r| == len && forall n :: n in r <==> first <= n < first + len
  {
    if len == 0 then {} else Interval(first, len - 1) + {first + len - 1}
  }

  /** The numbers meant for the table. */
  ghost function Range(t: Table): set<nat> {
    if t.first <= t.largest then Interval(t.first, t.largest + 1 - t.first) else {}
  }

  function NewTable(first: nat, size: nat): Table
    requires size > 0
  {
    Table(first, first + size - 1, {}, {}, 0, false, NotRequested, None)
  }

  function Active(s: State): nat
    requires s.tables != []
  {
    |s.tables| - 1
  }

  // ----- The steps of a writer -----

  ghost predicate Init(s: State) {
    && s.size > 0 && s.next == 0 && s.tables == [NewTable(0, s.size)] && s.memlist == []
    && s.numImm == 0 && s.notStarted == 0 && s.lock == None && s.level0 == [] && s.picked == 0
    && (forall w :: w in s.writers ==> s.writers[w] == Idle)
    && forall j :: j in s.flushers ==> s.flushers[j] == Resting
  }

  function SetWriter(s: State, w: nat, p: Phase): State {
    s.(writers := s.writers[w := p])
  }

  function SetTable(s: State, t: nat, m: Table): State
    requires t < |s.tables|
  {
    s.(tables := s.tables[t := m])
  }

  ghost predicate TakeNumber(s: State, s': State, w: nat) {
    && w in s.writers && s.writers[w] == Idle
    && s' == SetWriter(s, w, Numbered(s.next)).(next := s.next + 1)
  }

  /** mem_.load(), also after waiting for room. */
  ghost predicate Load(s: State, s': State, w: nat) {
    && w in s.writers && s.tables != []
    && var p := s.writers[w];
    && (p.Numbered? || p.Loaded?)
    && s' == SetWriter(s, w, Loaded(p.n, Active(s)))
  }

  /** The loaded table is the right one. */
  ghost predicate UseLoaded(s: State, s': State, w: nat) {
    && w in s.writers
    && var p := s.writers[w];
    && p.Loaded? && p.t < |s.tables| && InRange(s.tables[p.t], p.n)
    && s' == SetWriter(s, w, Placed(p.n, p.t))
  }

  /** The number is above the table: take the lock, and switch if that is still so and there is
      room.  The writer is given the new table without another look at its range. */
  ghost predicate Switch(s: State, s': State, w: nat) {
    && w in s.writers && s.tables != [] && s.lock == None
    && var p := s.writers[w];
    && p.Loaded? && p.t < |s.tables| && p.n > s.tables[p.t].largest
    && var a := Active(s);
    && s.numImm <= IMMUTABLE_STOP_WRITES_TRIGGER && p.n > s.tables[a].largest
    && s.size > 0
    && s' == SetWriter(s, w, Stored(p.n, |s.tables|)).(
               lock := Some(w),
               tables := s.tables[a := s.tables[a].(flush := Requested)] + [NewTable(s.tables[a].largest + 1, s.size)])
  }

  ghost predicate AddToList(s: State, s': State, w: nat) {
    && w in s.writers && |s.tables| >= 2
    && var p := s.writers[w];
    && p.Stored?
    && s' == SetWriter(s, w, Listed(p.n, p.t)).(memlist := [|s.tables| - 2] + s.memlist)
  }

  /** The counters, the flush request (made a second time) and the unlock. */
  ghost predicate Announce(s: State, s': State, w: nat) {
    && w in s.writers && |s.tables| >= 2
    && var p := s.writers[w];
    && p.Listed?
    && var o := |s.tables| - 2;
    && s' == SetTable(SetWriter(s, w, Placed(p.n, p.t)), o, s.tables[o].(flush := Requested)).(
               lock := None, numImm := s.numImm + 1, notStarted := s.notStarted + 1)
  }

  /** The number is below the loaded table: look through the list, under the lock. */
  ghost predicate Search(s: State, s': State, w: nat) {
    && w in s.writers && s.lock == None
    && var p := s.writers[w];
    && p.Loaded? && p.t < |s.tables| && p.n < s.tables[p.t].first
    && ((exists t :: t in s.memlist && t < |s.tables| && InRange(s.tables[t], p.n)
                     && s' == SetWriter(s, w, Placed(p.n, t)))
        || ((forall t :: t in s.memlist && t < |s.tables| ==> !InRange(s.tables[t], p.n))
            && s' == SetWriter(s, w, NoTable(p.n))))
  }

  ghost predicate Insert(s: State, s': State, w: nat) {
    && w in s.writers
    && var p := s.writers[w];
    && p.Placed? && p.t < |s.tables|
    && s' == SetTable(SetWriter(s, w, Inserted(p.n, p.t)), p.t,
                      s.tables[p.t].(content := s.tables[p.t].content + {p.n}))
  }

  ghost predicate Count(s: State, s': State, w: nat) {
    && w in s.writers
    && var p := s.writers[w];
    && p.Inserted? && p.t < |s.tables|
    && var m := s.tables[p.t];
    && s' == SetTable(SetWriter(s, w, Counted(p.n, p.t)), p.t, m.(count := m.count + 1, counted := m.counted + {p.n}))
  }

  ghost predicate CheckFull(s: State, s': State, w: nat) {
    && w in s.writers
    && var p := s.writers[w];
    && p.Counted? && p.t < |s.tables|
    && var m := s.tables[p.t];
    && s' == SetTable(SetWriter(s, w, Idle), p.t, m.(able := m.able || m.count >= s.size))
  }

  // ----- The steps of a flush thread -----

  /** The oldest requested table of the list. */
  ghost predicate Pick(s: State, s': State, j: nat, i: nat) {
    && j in s.flushers && s.flushers[j] == Resting && s.notStarted > 0
    && i < |s.memlist| && s.memlist[i] < |s.tables|
    && var t := s.memlist[i];
    && s.tables[t].flush == Requested
    && (forall k :: i < k < |s.memlist| && s.memlist[k] < |s.tables| ==> s.tables[s.memlist[k]].flush != Requested)
    && s' == SetTable(s, t, s.tables[t].(flush := Processing)).(
               notStarted := s.notStarted - 1, flushers := s.flushers[j := Picked(t)], picked := s.picked + 1)
  }

  /** Wait until the table may be flushed, then write it out. */
  ghost predicate Build(s: State, s': State, j: nat) {
    && j in s.flushers
    && var p := s.flushers[j];
    && p.Picked? && p.t < |s.tables| && s.tables[p.t].able
    && s' == s.(flushers := s.flushers[j := Built(p.t, s.tables[p.t].content)])
  }

  ghost predicate Mark(s: State, s': State, j: nat) {
    && j in s.flushers
    && var p := s.flushers[j];
    && p.Built? && p.t < |s.tables|
    && s' == SetTable(s, p.t, s.tables[p.t].(flush := Finished, sst := Some(p.file))).(
               flushers := s.flushers[j := Marked])
  }

  /** How many tables, from the oldest on, have finished. */
  function FinishedTail(tables: seq<Table>, memlist: seq<nat>): nat {
    if memlist == [] || memlist[|memlist| - 1] >= |tables| || tables[memlist[|memlist| - 1]].flush != Finished then 0
    else 1 + FinishedTail(tables, memlist[..|memlist| - 1])
  }

  /** The files of the `n` oldest tables of the list, oldest first. */
  ghost function Files(tables: seq<Table>, memlist: seq<nat>, n: nat): seq<set<nat>>
    requires n <= |memlist|
  {
    if n == 0 then []
    else
      var t := memlist[|memlist| - 1];
      [if t < |tables| && tables[t].sst.Some? then tables[t].sst.value else {}]
      + Files(tables, memlist[..|memlist| - 1], n - 1)
  }

  lemma {:induction false} TailFits(tables: seq<Table>, memlist: seq<nat>)
    ensures FinishedTail(tables, memlist) <= |memlist|
  {
    if memlist != [] {
      TailFits(tables, memlist[..|memlist| - 1]);
    }
  }

  /** TryInstallMemtableFlushResults, after the mark: commit every finished table from the oldest on. */
  ghost predicate Install(s: State, s': State, j: nat) {
    && j in s.flushers && s.flushers[j] == Marked && s.lock == None
    && var b := FinishedTail(s.tables, s.memlist);
    && b <= |s.memlist|
    && s' == s.(flushers := s.flushers[j := Resting],
                memlist := s.memlist[..|s.memlist| - b],
                numImm := s.numImm - b,
                level0 := s.level0 + Files(s.tables, s.memlist, b))
  }

  ghost predicate WriterStep(s: State, s': State, w: nat) {
    || TakeNumber(s, s', w) || Load(s, s', w) || UseLoaded(s, s', w) || Switch(s, s', w) || AddToList(s, s', w)
    || Announce(s, s', w) || Search(s, s', w) || Insert(s, s', w) || Count(s, s', w) || CheckFull(s, s', w)
  }

  ghost predicate FlusherStep(s: State, s': State, j: nat) {
    || (exists i :: Pick(s, s', j, i)) || Build(s, s', j) || Mark(s, s', j) || Install(s, s', j)
  }

  ghost predicate Step(s: State, s': State) {
    (exists w :: WriterStep(s, s', w)) || (exists j :: FlusherStep(s, s', j))
  }

  function Last(tr: seq<State>): State
    requires tr != []
  {
    tr[|tr| - 1]
  }

  /** A run; every prefix of one is one. */
  ghost predicate Run(tr: seq<State>) {
    && tr != []
    && if |tr| == 1 then Init(Last(tr)) else Run(tr[..|tr| - 1]) && Step(Last(tr[..|tr| - 1]), Last(tr))
  }
}
