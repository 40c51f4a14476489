/**
 The store as a state machine: writers insert into the memtables, also into ones that are immutable
 already, full memtables are flushed, compactions are picked while others are in flight, and finished
 compactions install their results in any order.

 Each step is one critical section, or one insertion.  Switching the memtable, picking, installing a
 flush, installing a compaction and a trivial move all run under superversion_memlist_mtx.
 */
module Lsm {
  import opened Keys
  import opened Versions
  import opened VersionBuilder
  import opened Scheduler
  import opened ReadSets
  import Merge

  // ----- Ranges of lists of files -----

  function MinKey(fs: seq<File>): UserKey
    requires fs != []
  {
    var last := fs[|fs| - 1].smallest.user;
    if |fs| == 1 then last
    else var m := MinKey(fs[..|fs| - 1]); if last < m then last else m
  }

  function MaxKey(fs: seq<File>): UserKey
    requires fs != []
  {
    var last := fs[|fs| - 1].largest.user;
    if |fs| == 1 then last
    else var m := MaxKey(fs[..|fs| - 1]); if m < last then last else m
  }

  lemma {:induction false} RangeOf(fs: seq<File>)
    requires fs != []
    ensures IsRange(fs, MinKey(fs), MaxKey(fs))
  {
    if |fs| == 1 {
      assert fs[0] in fs;
    } else {
      var rest := fs[..|fs| - 1];
      RangeOf(rest);
      assert fs == rest + [fs[|fs| - 1]];
      assert fs[|fs| - 1] in fs;
      var a :| a in rest && a.smallest.user == MinKey(rest);
      var b :| b in rest && b.largest.user == MaxKey(rest);
      assert a in fs && b in fs;
    }
  }

  /** The file lies entirely on one side of the range of the list. */
  predicate Outside(g: File, fs: seq<File>)
    requires fs != []
  {
    g.largest.user < MinKey(fs) || MaxKey(fs) < g.smallest.user
  }

  predicate HullsApart(fs: seq<File>, gs: seq<File>)
    requires fs != [] && gs != []
  {
    MaxKey(fs) < MinKey(gs) || MaxKey(gs) < MinKey(fs)
  }

  // ----- The state -----

  /** A memtable, meant for the sequence numbers from `first` to below `limit`. */
  datatype Mem = Mem(first: nat, limit: nat, entries: seq<Entry>)

  /** `mems` holds the memtables, newest first; the first is the active one, the others are immutable.
      `used` holds the id of every file ever installed, and `written` everything ever inserted. */
  datatype State = State(
    mems: seq<Mem>,
    levels: seq<seq<File>>,
    inProgress: seq<seq<File>>,
    under: set<Id>,
    jobs: set<Job>,
    used: set<Id>,
    written: set<Entry>)

  ghost predicate Shaped(s: State) {
    s.mems != [] && |s.levels| == NUM_LEVELS && |s.inProgress| == NUM_LEVELS
  }

  function Active(s: State): Mem
    requires s.mems != []
  {
    s.mems[0]
  }

  function Oldest(s: State): Mem
    requires s.mems != []
  {
    s.mems[|s.mems| - 1]
  }

  ghost predicate FilesOk(s: State)
    requires Shaped(s)
  {
    && (forall l :: 0 <= l < NUM_LEVELS ==> Ascending(s.levels[l]))
    && forall l, f :: 0 <= l < NUM_LEVELS && f in s.levels[l] ==> FileOk(f)
  }

  ghost predicate IdsKnown(s: State)
    requires Shaped(s)
  {
    && s.under <= s.used
    && forall l, f :: 0 <= l < NUM_LEVELS && f in s.levels[l] ==> IdOf(f) in s.used
  }

  ghost predicate IdsUnique(s: State)
    requires Shaped(s)
  {
    forall l, m, f, g ::
      (0 <= l < NUM_LEVELS && 0 <= m < NUM_LEVELS && f in s.levels[l] && g in s.levels[m] && IdOf(f) == IdOf(g))
      ==> l == m && f == g
  }

  /** Two files of one level: ordered by age on level 0, without a common user key elsewhere. */
  ghost predicate Neighbours(l: nat, f: File, g: File) {
    if l == 0 then f.number != g.number && (f.number > g.number ==> NewerThan(f, g)) else Apart(f, g)
  }

  ghost predicate LevelsOk(s: State)
    requires Shaped(s)
  {
    && (forall l, f, g :: 0 <= l < NUM_LEVELS && f in s.levels[l] && g in s.levels[l] && f != g ==> Neighbours(l, f, g))
    && ShallowerIsNewer(s.levels)
  }

  /** A compaction's inputs, and how they hang together. */
  ghost predicate JobOk(s: State, j: Job)
    requires Shaped(s)
  {
    && j.level + 1 < NUM_LEVELS
    && j.in0 != []
    && (j.level > 0 ==> |j.in0| == 1)
    && (forall f :: f in j.in0 ==> f in s.levels[j.level])
    && (forall f :: f in j.in1 ==> f in s.levels[j.level + 1])
    && (forall f :: f in j.in1 ==> Overlaps(f, MinKey(j.in0), MaxKey(j.in0)))
  }

  /** Nothing else on the output level meets the compaction's range, and on level 0 everything that
      arrived since is newer. */
  ghost predicate JobClear(s: State, j: Job)
    requires Shaped(s) && JobOk(s, j)
  {
    && (forall g :: g in s.levels[j.level + 1] && g !in j.in1 ==> Outside(g, Inputs(j)))
    && (j.level == 0 ==> forall f, g :: f in s.levels[0] && f !in j.in0 && g in j.in0 ==> f.number > g.number)
  }

  /** Two compactions in flight share no file, and their outputs cannot meet. */
  ghost predicate JobsApart(j: Job, k: Job)
    requires j.in0 != [] && k.in0 != []
  {
    && (forall f :: f in Inputs(j) ==> f !in Inputs(k))
    && (j.level == k.level ==> j.level > 0 && HullsApart(Inputs(j), Inputs(k)))
  }

  ghost predicate JobsOk(s: State)
    requires Shaped(s)
  {
    && (forall j :: j in s.jobs ==> JobOk(s, j) && JobClear(s, j))
    && forall j, k :: j in s.jobs && k in s.jobs && j != k ==> JobsApart(j, k)
  }

  ghost predicate InFlight(s: State, f: File) {
    exists j :: j in s.jobs && f in Inputs(j)
  }

  ghost predicate NoRepeats(v: seq<File>) {
    forall a, b :: 0 <= a < b < |v| ==> v[a] != v[b]
  }

  /** The in_progress list of level `l` is its flagged files. */
  ghost predicate ProgressIs(s: State, l: nat)
    requires Shaped(s) && l < NUM_LEVELS
  {
    && NoRepeats(s.inProgress[l])
    && forall f :: f in s.inProgress[l] <==> f in s.levels[l] && IdOf(f) in s.under
  }

  /** The flags say which files are inputs. */
  ghost predicate FlagsOk(s: State)
    requires Shaped(s)
  {
    && (forall l, f :: 0 <= l < NUM_LEVELS && f in s.levels[l] ==> (IdOf(f) in s.under <==> InFlight(s, f)))
    && forall l :: 0 <= l < NUM_LEVELS ==> ProgressIs(s, l)
  }

  ghost function MemEntries(s: State): set<Entry> {
    set m, e | m in s.mems && e in m.entries :: e
  }

  ghost function Stored(s: State): set<Entry> {
    MemEntries(s) + AllEntries(s.levels)
  }

  predicate Meant(m: Mem, n: nat) {
    m.first <= n < m.limit
  }

  ghost predicate MemOk(m: Mem) {
    && m.first < m.limit && Sorted(m.entries) && Merge.AllParse(m.entries)
    && forall e :: e in m.entries ==> Meant(m, e.key.seqno)
  }

  /** Every number of the memtable has been inserted. */
  ghost predicate Full(m: Mem) {
    forall n :: Meant(m, n) ==> exists e :: e in m.entries && e.key.seqno == n
  }

  /** Memtables hold their own numbers, younger ones have higher numbers, and files only lower ones. */
  ghost predicate MemsOk(s: State)
    requires Shaped(s)
  {
    && (forall m :: m in s.mems ==> MemOk(m))
    && (forall a, b :: 0 <= a < b < |s.mems| ==> s.mems[b].limit <= s.mems[a].first)
    && forall l, f, d :: 0 <= l < NUM_LEVELS && f in s.levels[l] && d in f.entries ==> d.key.seqno < Oldest(s).first
  }

  /** The latest read of the store is the latest read of everything ever written. */
  ghost predicate HistoryOk(s: State)
    requires Shaped(s)
  {
    && Proper(s.written)
    && (forall e :: e in s.written ==> e.key.seqno < Active(s).limit)
    && (forall m, e :: m in s.mems && e in s.written && Meant(m, e.key.seqno) ==> e in m.entries)
    && Stored(s) <= s.written
    && SameReads(s.written, Stored(s), Active(s).limit)
  }

  ghost predicate Inv(s: State) {
    && Shaped(s) && FilesOk(s) && IdsKnown(s) && IdsUnique(s) && LevelsOk(s) && JobsOk(s) && FlagsOk(s)
    && MemsOk(s) && HistoryOk(s)
  }

  // ----- The steps -----

  ghost predicate Init(s: State) {
    && Shaped(s) && |s.mems| == 1 && Active(s).entries == [] && Active(s).first < Active(s).limit
    && s.jobs == {} && s.under == {} && s.used == {} && s.written == {}
    && forall l :: 0 <= l < NUM_LEVELS ==> s.levels[l] == [] && s.inProgress[l] == []
  }

  /** The active memtable becomes immutable; the next one takes the numbers up to `limit`. */
  ghost predicate Seal(s: State, s': State, limit: nat)
    requires Shaped(s)
  {
    && Active(s).limit < limit
    && s' == s.(mems := [Mem(Active(s).limit, limit, [])] + s.mems)
  }

  /** A writer inserts its entry into the memtable meant for its number, be it active or immutable. */
  ghost predicate Insert(s: State, s': State, i: nat, e: Entry, es: seq<Entry>) {
    && i < |s.mems| && Meant(s.mems[i], e.key.seqno) && Parses(e.key)
    && (forall d :: d in s.mems[i].entries ==> d.key.seqno != e.key.seqno)
    && Sorted(es) && Entries(es) == Entries(s.mems[i].entries) + {e}
    && s' == s.(mems := s.mems[i := s.mems[i].(entries := es)], written := s.written + {e})
  }

  function Tagged<T>(level: nat, items: seq<T>): seq<(nat, T)> {
    seq(|items|, i requires 0 <= i < |items| => (level, items[i]))
  }

  function Ids(fs: seq<File>): seq<Id> {
    seq(|fs|, i requires 0 <= i < |fs| => IdOf(fs[i]))
  }

  /** LogAndApply: the builder saves every level under the edit, added files lose their flag, and
      the in_progress lists are made anew. */
  ghost predicate Applied(s: State, s': State, e: Edit)
    requires Shaped(s)
  {
    && Shaped(s')
    && (forall l :: 0 <= l < NUM_LEVELS ==> Saved(s.levels[l], AddedAt(e, l), DeletedAfter({}, e, l), s'.levels[l]))
    && s'.under == s.under - AddedBelow(e, NUM_LEVELS)
    && (forall l :: 0 <= l < NUM_LEVELS ==> s'.inProgress[l] == Flagged(s'.levels[l], s.under - AddedBelow(e, l + 1)))
    && s'.used == s.used + AddedBelow(e, NUM_LEVELS)
  }

  /** The ids of the files an edit adds to levels below `n`. */
  function AddedBelow(e: Edit, n: nat): set<Id> {
    if n == 0 then {} else AddedBelow(e, n - 1) + IdsOf(AddedAt(e, n - 1))
  }

  /** `f` is the table a flush of `t` writes. */
  ghost predicate FlushOf(t: seq<Entry>, f: File) {
    && t != [] && Sorted(t)
    && f.smallest == t[0].key && f.largest == t[|t| - 1].key && f.entries == Merge.Survivors(t, None, |t|)
  }

  function FlushEdit(f: File): Edit {
    Edit([], [(0, f)])
  }

  /** The oldest memtable is immutable and full; it has been written to `f` and moves to level 0.  The
      file's number is above those of the files already there. */
  ghost predicate Flush(s: State, s': State, f: File)
    requires Shaped(s)
  {
    && |s.mems| > 1 && Full(Oldest(s)) && FlushOf(Oldest(s).entries, f)
    && IdOf(f) !in s.used
    && (forall g :: g in s.levels[0] ==> g.number < f.number)
    && Applied(s, s', FlushEdit(f))
    && s'.mems == s.mems[..|s.mems| - 1]
    && s'.jobs == s.jobs && s'.written == s.written
  }

  ghost predicate Pick(s: State, s': State, j: Job)
    requires Shaped(s)
  {
    && Picks(s.levels, s.inProgress, s.under, j)
    && s' == s.(jobs := s.jobs + {j},
                under := s.under + IdsOf(Elements(Inputs(j))),
                inProgress := s.inProgress[j.level := s.inProgress[j.level] + j.in0]
                                          [j.level + 1 := s.inProgress[j.level + 1] + j.in1])
  }

  predicate Trivial(j: Job) {
    |j.in0| == 1 && j.in1 == []
  }

  function MoveEditOf(j: Job): Edit
    requires Trivial(j)
  {
    Edit([(j.level, IdOf(j.in0[0]))], [(j.level + 1, j.in0[0])])
  }

  function CompactionEdit(j: Job, outs: seq<File>): Edit {
    Edit(Tagged(j.level, Ids(j.in0)) + Tagged(j.level + 1, Ids(j.in1)), Tagged(j.level + 1, outs))
  }

  /** The output files are the tables of a merge of the inputs. */
  ghost predicate MergedInto(j: Job, es: seq<Entry>, ts: seq<Merge.Table>, outs: seq<File>) {
    && Sorted(es) && Entries(es) == FileEntries(Inputs(j))
    && Merge.DisjointRun(ts) && Merge.Concat(ts) == Merge.Survivors(es, None, |es|)
    && |outs| == |ts|
    && forall i :: 0 <= i < |outs| ==>
         outs[i].smallest == ts[i].smallest && outs[i].largest == ts[i].largest && outs[i].entries == ts[i].entries
  }

  ghost predicate FreshIds(s: State, outs: seq<File>) {
    && (forall f :: f in outs ==> IdOf(f) !in s.used)
    && forall a, b :: 0 <= a < b < |outs| ==> IdOf(outs[a]) != IdOf(outs[b])
  }

  ghost predicate Finish(s: State, s': State, j: Job, es: seq<Entry>, ts: seq<Merge.Table>, outs: seq<File>)
    requires Shaped(s)
  {
    && j in s.jobs
    && MergedInto(j, es, ts, outs) && FreshIds(s, outs)
    && Applied(s, s', CompactionEdit(j, outs))
    && s'.jobs == s.jobs - {j}
    && s'.mems == s.mems && s'.written == s.written
  }

  ghost predicate Move(s: State, s': State, j: Job)
    requires Shaped(s)
  {
    && j in s.jobs && Trivial(j)
    && Applied(s, s', MoveEditOf(j))
    && s'.jobs == s.jobs - {j}
    && s'.mems == s.mems && s'.written == s.written
  }

  ghost predicate Step(s: State, s': State) {
    && Shaped(s)
    && (|| (exists limit :: Seal(s, s', limit))
        || (exists i, e, es :: Insert(s, s', i, e, es))
        || (exists f :: Flush(s, s', f))
        || (exists j :: Pick(s, s', j))
        || (exists j, es, ts, outs :: Finish(s, s', j, es, ts, outs))
        || (exists j :: Move(s, s', j)))
  }

  /** Every run from an empty store. */
  ghost predicate Run(tr: seq<State>) {
    && tr != [] && Init(tr[0])
    && forall i, j :: 0 <= i < |tr| && j == i + 1 && j < |tr| ==> Step(tr[i], tr[j])
  }
}
