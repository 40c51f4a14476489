/**
 The SuperVersion protocol: readers cache the current super version in a thread-local slot and use
 it without a lock, while an installer replaces it and takes the cached copies away.

 A step is one atomic operation on a slot or a counter, or one critical section of the mutex.  The
 installer holds that mutex from its first step to its last.
 */
module SuperVersions {
  import opened Keys

  /** A reference: the database's own, a slot's, a reader's, or one the installer took from a slot. */
  datatype Owner = Database | SlotOf(t: nat) | ReaderOf(t: nat) | Scraped(t: nat)

  /** `refs` is the atomic counter; `owners` records who holds the references it counts. */
  datatype SuperVersion = SuperVersion(refs: int, number: nat, freed: bool, owners: set<Owner>)

  datatype Slot = Obsolete | InUse | Cached(id: nat)

  /** A reader from GetThreadLocalSuperVersion to ReturnAndCleanupSuperVersion.  `floor` is the last
      super version whose installation was complete when the reader began. */
  datatype Reader =
    | Outside
    | Swapped(got: Slot, floor: nat)
    | Stale(id: nat, floor: nat)
    | Clearing(id: nat, floor: nat)
    | Asking(floor: nat)
    | Using(id: nat, floor: nat)
    | Refused(id: nat)
    | Deleting(id: nat)

  datatype Installer =
    | Resting
    | Made(prev: nat)
    | Bumped(prev: nat)
    | Scraping(prev: nat, done: set<nat>, got: map<nat, nat>)
    | Dropping(prev: nat)
    | Dropped(prev: nat)

  datatype State = State(
    svs: seq<SuperVersion>,
    current: nat,
    number: nat,
    slots: map<nat, Slot>,
    readers: map<nat, Reader>,
    installer: Installer)

  /** The last super version whose installation is complete. */
  function Installed(s: State): nat {
    if s.installer.Resting? then s.current else s.installer.prev
  }

  function Take(sv: SuperVersion, o: Owner): SuperVersion {
    sv.(refs := sv.refs + 1, owners := sv.owners + {o})
  }

  function Give(sv: SuperVersion, o: Owner): SuperVersion {
    sv.(refs := sv.refs - 1, owners := sv.owners - {o})
  }

  /** The reference changes hands; the counter does not. */
  function Pass(sv: SuperVersion, o: Owner, p: Owner): SuperVersion {
    sv.(owners := sv.owners - {o} + {p})
  }

  function SetSv(s: State, id: nat, sv: SuperVersion): State
    requires id < |s.svs|
  {
    s.(svs := s.svs[id := sv])
  }

  function SetReader(s: State, t: nat, r: Reader): State {
    s.(readers := s.readers[t := r])
  }

  function SetSlot(s: State, t: nat, c: Slot): State {
    s.(slots := s.slots[t := c])
  }

  ghost predicate Init(s: State) {
    && s.svs == [SuperVersion(1, 1, false, {Database})] && s.current == 0 && s.number == 1 && s.installer == Resting
    && s.slots.Keys == s.readers.Keys
    && forall t :: t in s.slots ==> s.slots[t] == Obsolete && s.readers[t] == Outside
  }

  // ----- A reader -----

  /** Swap(kSVInUse): the slot's reference becomes the reader's. */
  ghost predicate Swap(s: State, s': State, t: nat) {
    && t in s.readers && t in s.slots && s.readers[t] == Outside
    && var c := s.slots[t];
    && var moved := SetSlot(SetReader(s, t, Swapped(c, Installed(s))), t, InUse);
    && s' == if c.Cached? && c.id < |s.svs| then SetSv(moved, c.id, Pass(s.svs[c.id], SlotOf(t), ReaderOf(t)))
             else moved
  }

  /** A cached super version whose number is still the current one may be used. */
  ghost predicate Hit(s: State, s': State, t: nat) {
    && t in s.readers
    && var r := s.readers[t];
    && r.Swapped? && r.got.Cached? && r.got.id < |s.svs| && s.svs[r.got.id].number == s.number
    && s' == SetReader(s, t, Using(r.got.id, r.floor))
  }

  ghost predicate Miss(s: State, s': State, t: nat) {
    && t in s.readers
    && var r := s.readers[t];
    && r.Swapped?
    && if r.got.Cached?
       then r.got.id < |s.svs| && s.svs[r.got.id].number != s.number && s' == SetReader(s, t, Stale(r.got.id, r.floor))
       else s' == SetReader(s, t, Asking(r.floor))
  }

  /** Unref of a stale copy; the last reference obliges the reader to clean up. */
  ghost predicate DropStale(s: State, s': State, t: nat) {
    && t in s.readers
    && var r := s.readers[t];
    && r.Stale? && r.id < |s.svs|
    && s' == SetReader(SetSv(s, r.id, Give(s.svs[r.id], ReaderOf(t))), t,
                       if s.svs[r.id].refs == 1 then Clearing(r.id, r.floor) else Asking(r.floor))
  }

  ghost predicate Clear(s: State, s': State, t: nat) {
    && t in s.readers
    && var r := s.readers[t];
    && r.Clearing? && r.id < |s.svs|
    && s' == SetReader(SetSv(s, r.id, s.svs[r.id].(freed := true)), t, Asking(r.floor))
  }

  /** Ref of the current super version, under the mutex. */
  ghost predicate Ask(s: State, s': State, t: nat) {
    && t in s.readers && s.installer.Resting? && s.current < |s.svs|
    && var r := s.readers[t];
    && r.Asking?
    && s' == SetReader(SetSv(s, s.current, Take(s.svs[s.current], ReaderOf(t))), t, Using(s.current, r.floor))
  }

  /** CompareAndSwap back into the slot. */
  ghost predicate Return(s: State, s': State, t: nat) {
    && t in s.readers && t in s.slots
    && var r := s.readers[t];
    && r.Using? && r.id < |s.svs|
    && s' == if s.slots[t] == InUse
             then SetSlot(SetReader(SetSv(s, r.id, Pass(s.svs[r.id], ReaderOf(t), SlotOf(t))), t, Outside), t,
                          Cached(r.id))
             else SetReader(s, t, Refused(r.id))
  }

  ghost predicate DropRefused(s: State, s': State, t: nat) {
    && t in s.readers
    && var r := s.readers[t];
    && r.Refused? && r.id < |s.svs|
    && s' == SetReader(SetSv(s, r.id, Give(s.svs[r.id], ReaderOf(t))), t,
                       if s.svs[r.id].refs == 1 then Deleting(r.id) else Outside)
  }

  ghost predicate Delete(s: State, s': State, t: nat) {
    && t in s.readers
    && var r := s.readers[t];
    && r.Deleting? && r.id < |s.svs|
    && s' == SetReader(SetSv(s, r.id, s.svs[r.id].(freed := true)), t, Outside)
  }

  // ----- The installer -----

  ghost predicate Make(s: State, s': State) {
    && s.installer.Resting?
    && s' == s.(svs := s.svs + [SuperVersion(1, 0, false, {Database})], current := |s.svs|,
                installer := Made(s.current))
  }

  ghost predicate Bump(s: State, s': State) {
    && s.installer.Made?
    && s' == s.(number := s.number + 1, installer := Bumped(s.installer.prev))
  }

  ghost predicate SetNumber(s: State, s': State) {
    && s.installer.Bumped? && s.current < |s.svs|
    && s' == SetSv(s, s.current, s.svs[s.current].(number := s.number)).(
               installer := Scraping(s.installer.prev, {}, map[]))
  }

  /** Scrape one slot; a reference found there is now the installer's. */
  ghost predicate Scrape(s: State, s': State, t: nat) {
    && s.installer.Scraping? && t in s.slots && t !in s.installer.done
    && var i := s.installer;
    && var c := s.slots[t];
    && var moved := SetSlot(s, t, Obsolete);
    && s' == if c.Cached? && c.id < |s.svs|
             then SetSv(moved, c.id, Pass(s.svs[c.id], SlotOf(t), Scraped(t))).(
                    installer := i.(done := i.done + {t}, got := i.got[t := c.id]))
             else moved.(installer := i.(done := i.done + {t}))
  }

  /** Unref of one of the scraped copies. */
  ghost predicate DropScraped(s: State, s': State, t: nat) {
    && s.installer.Scraping? && s.slots.Keys <= s.installer.done && t in s.installer.got
    && var i := s.installer;
    && var id := i.got[t];
    && id < |s.svs|
    && s' == SetSv(s, id, Give(s.svs[id], Scraped(t))).(installer := i.(got := i.got - {t}))
  }

  ghost predicate EndScrape(s: State, s': State) {
    && s.installer.Scraping? && s.slots.Keys <= s.installer.done && s.installer.got == map[]
    && s' == s.(installer := Dropping(s.installer.prev))
  }

  ghost predicate DropOld(s: State, s': State) {
    && s.installer.Dropping? && s.installer.prev < |s.svs|
    && var p := s.installer.prev;
    && s' == SetSv(s, p, Give(s.svs[p], Database)).(installer := if s.svs[p].refs == 1 then Dropped(p) else Resting)
  }

  ghost predicate CleanOld(s: State, s': State) {
    && s.installer.Dropped? && s.installer.prev < |s.svs|
    && var p := s.installer.prev;
    && s' == SetSv(s, p, s.svs[p].(freed := true)).(installer := Resting)
  }

  ghost predicate ReaderStep(s: State, s': State, t: nat) {
    || Swap(s, s', t) || Hit(s, s', t) || Miss(s, s', t) || DropStale(s, s', t) || Clear(s, s', t) || Ask(s, s', t)
    || Return(s, s', t) || DropRefused(s, s', t) || Delete(s, s', t)
  }

  ghost predicate InstallerStep(s: State, s': State) {
    || Make(s, s') || Bump(s, s') || SetNumber(s, s')
    || (exists t :: Scrape(s, s', t)) || (exists t :: DropScraped(s, s', t))
    || EndScrape(s, s') || DropOld(s, s') || CleanOld(s, s')
  }

  ghost predicate Step(s: State, s': State) {
    (exists t :: ReaderStep(s, s', t)) || InstallerStep(s, s')
  }

  function Last(tr: seq<State>): State
    requires tr != []
  {
    tr[|tr| - 1]
  }

  /** A run; every prefix of one is one. */
  ghost predicate Run(tr: seq<State>) {
    && tr != []
    && if |tr| == 1 then Init(Last(tr)) else Run(tr[..|tr| - 1]) && Step(Last(tr[..|tr| - 1]), Last(tr))
  }

  // ----- The invariants -----

  /** Whether `o` should be holding a reference to super version `id`. */
  predicate Owns(s: State, o: Owner, id: nat) {
    match o
    case Database => id == s.current || (!s.installer.Resting? && !s.installer.Dropped? && id == s.installer.prev)
    case SlotOf(t) => t in s.slots && s.slots[t] == Cached(id)
    case ReaderOf(t) => t in s.readers && Held(s.readers[t]) == Some(id)
    case Scraped(t) => s.installer.Scraping? && t in s.installer.got && s.installer.got[t] == id
  }

  /** The super version a reader holds a reference to. */
  function Held(r: Reader): Option<nat> {
    match r
    case Swapped(c, _) => if c.Cached? then Some(c.id) else None
    case Stale(id, _) => Some(id)
    case Using(id, _) => Some(id)
    case Refused(id) => Some(id)
    case _ => None
  }

  /** The super version a thread is obliged to clean up. */
  function Doomed(r: Reader): Option<nat> {
    match r
    case Clearing(id, _) => Some(id)
    case Deleting(id) => Some(id)
    case _ => None
  }

  ghost predicate Cleaner(s: State, id: nat) {
    || (s.installer.Dropped? && s.installer.prev == id)
    || exists t :: t in s.readers && Doomed(s.readers[t]) == Some(id)
  }

  /** The counter counts exactly the references held, and a super version without any is freed or
      about to be. */
  ghost predicate SvOk(s: State, id: nat)
    requires id < |s.svs|
  {
    var sv := s.svs[id];
    && (forall o :: o in sv.owners <==> Owns(s, o, id))
    && sv.refs == |sv.owners|
    && (sv.freed ==> sv.owners == {})
    && (sv.owners == {} && !sv.freed <==> Cleaner(s, id))
  }

  /** At most one thread is obliged to clean up a super version. */
  ghost predicate OneCleaner(s: State) {
    && (forall t, u ::
          (t in s.readers && u in s.readers
           && Doomed(s.readers[t]).Some? && Doomed(s.readers[t]) == Doomed(s.readers[u]))
          ==> t == u)
    && (s.installer.Dropped? ==> forall t :: t in s.readers ==> Doomed(s.readers[t]) != Some(s.installer.prev))
  }

  function Floor(r: Reader): nat {
    match r
    case Swapped(_, f) => f
    case Stale(_, f) => f
    case Clearing(_, f) => f
    case Asking(f) => f
    case Using(_, f) => f
    case _ => 0
  }

  /** The slot's reference has not been taken away: it is in the slot or with its reader. */
  predicate Live(s: State, t: nat)
    requires t in s.readers && t in s.slots
  {
    s.slots[t].Cached? || (s.slots[t].InUse? && Held(s.readers[t]).Some?)
  }

  ghost predicate ThreadOk(s: State, t: nat)
    requires t in s.readers && t in s.slots
  {
    var r, c := s.readers[t], s.slots[t];
    && (c.Cached? ==> r.Outside?)
    && (r.Outside? || r.Refused? || r.Deleting? ==> !c.InUse?)
    && (c.Cached? ==> c.id == Installed(s))
    && (Live(s, t) && c.InUse? ==> Held(r) == Some(Installed(s)))
    && (Held(r).Some? ==> Held(r).value <= s.current) && (Doomed(r).Some? ==> Doomed(r).value < s.current)
    && Floor(r) <= Installed(s)
    && (r.Using? ==> r.floor <= r.id)
    && (r.Swapped? ==> !r.got.InUse? && (r.got.Cached? ==> r.floor <= r.got.id))
  }

  ghost predicate InstallerOk(s: State) {
    && s.current == |s.svs| - 1 && s.slots.Keys == s.readers.Keys
    && (!s.installer.Resting? ==> s.installer.prev < s.current)
    && (s.installer.Scraping? ==>
          && (forall t :: t in s.installer.done && t in s.slots ==> !Live(s, t))
          && forall t :: t in s.installer.got ==> s.installer.got[t] == s.installer.prev && t in s.installer.done)
    && (s.installer.Dropping? || s.installer.Dropped? ==> forall t :: t in s.slots ==> !Live(s, t))
  }

  ghost predicate Inv(s: State) {
    && InstallerOk(s) && OneCleaner(s)
    && (forall t :: t in s.readers ==> ThreadOk(s, t))
    && forall id :: 0 <= id < |s.svs| ==> SvOk(s, id)
  }

  // ----- Steps of one reader -----

  /** Only thread `t`, its slot and the counters may have changed. */
  ghost predicate OnlyThread(s: State, s': State, t: nat) {
    && t in s.readers && t in s.slots && t in s'.readers && t in s'.slots
    && |s'.svs| == |s.svs| && s'.current == s.current && s'.number == s.number && s'.installer == s.installer
    && s'.readers == s.readers[t := s'.readers[t]] && s'.slots == s.slots[t := s'.slots[t]]
  }

  lemma {:induction false} ThreadsKept(s: State, s': State, t: nat)
    requires OnlyThread(s, s', t) && InstallerOk(s) && (forall u :: u in s.readers ==> ThreadOk(s, u))
    requires ThreadOk(s', t)
    requires Live(s', t) ==> Live(s, t) || (s.installer.Resting? && s.slots[t].InUse?)
    ensures InstallerOk(s') && forall u :: u in s'.readers ==> ThreadOk(s', u)
  {
    assert s'.readers.Keys == s.readers.Keys && s'.slots.Keys == s.slots.Keys;
    forall u | u in s'.readers
      ensures ThreadOk(s', u)
      ensures u != t ==> Live(s', u) == Live(s, u)
    {
      assert ThreadOk(s, u);
    }
  }

  /** The same threads are obliged to clean up `id`. */
  lemma {:induction false} SameCleaner(s: State, s': State, t: nat, id: nat)
    requires OnlyThread(s, s', t)
    requires Doomed(s'.readers[t]) == Some(id) <==> Doomed(s.readers[t]) == Some(id)
    ensures Cleaner(s, id) <==> Cleaner(s', id)
  {
    if Cleaner(s, id) && !(s.installer.Dropped? && s.installer.prev == id) {
      var u :| u in s.readers && Doomed(s.readers[u]) == Some(id);
      assert u in s'.readers && Doomed(s'.readers[u]) == Some(id);
    }
    if Cleaner(s', id) && !(s.installer.Dropped? && s.installer.prev == id) {
      var u :| u in s'.readers && Doomed(s'.readers[u]) == Some(id);
      assert u in s.readers && Doomed(s.readers[u]) == Some(id);
    }
  }

  /** The owners thread `t` accounts for. */
  function Mine(s: State, t: nat, id: nat): set<Owner> {
    (if Owns(s, SlotOf(t), id) then {SlotOf(t)} else {}) + (if Owns(s, ReaderOf(t), id) then {ReaderOf(t)} else {})
  }

  lemma {:induction false} SvKept(s: State, s': State, t: nat, id: nat)
    requires OnlyThread(s, s', t) && id < |s.svs| && SvOk(s, id)
    requires var sv, sv' := s.svs[id], s'.svs[id];
             && sv'.owners == sv.owners - {SlotOf(t), ReaderOf(t)} + Mine(s', t, id)
             && sv'.refs == |sv'.owners| && (sv'.freed ==> sv'.owners == {})
             && (sv'.owners == {} && !sv'.freed <==> Cleaner(s', id))
    ensures SvOk(s', id)
  {
    forall o
      ensures o in s'.svs[id].owners <==> Owns(s', o, id)
    {
      assert o in s.svs[id].owners <==> Owns(s, o, id);
      if o != SlotOf(t) && o != ReaderOf(t) {
        OwnsKept(s, s', t, id, o);
      }
    }
  }

  lemma {:induction false} OwnsKept(s: State, s': State, t: nat, id: nat, o: Owner)
    requires OnlyThread(s, s', t) && o != SlotOf(t) && o != ReaderOf(t)
    ensures Owns(s, o, id) <==> Owns(s', o, id)
  {
    match o
    case Database =>
    case SlotOf(u) =>
    case ReaderOf(u) =>
    case Scraped(u) =>
  }

  /** A super version whose references thread `t` did not touch. */
  lemma {:induction false} SvUntouched(s: State, s': State, t: nat, id: nat)
    requires OnlyThread(s, s', t) && id < |s.svs| && SvOk(s, id) && s'.svs[id] == s.svs[id]
    requires Mine(s', t, id) == Mine(s, t, id)
    requires Doomed(s'.readers[t]) == Some(id) <==> Doomed(s.readers[t]) == Some(id)
    ensures SvOk(s', id)
  {
    SameCleaner(s, s', t, id);
    assert SlotOf(t) in s.svs[id].owners <==> Owns(s, SlotOf(t), id);
    assert ReaderOf(t) in s.svs[id].owners <==> Owns(s, ReaderOf(t), id);
    SvKept(s, s', t, id);
  }

  /** A reference that passes between the slot and its reader. */
  lemma {:induction false} SvPassed(s: State, s': State, t: nat, id: nat, o: Owner, p: Owner)
    requires OnlyThread(s, s', t) && id < |s.svs| && SvOk(s, id) && s'.svs[id] == Pass(s.svs[id], o, p)
    requires (o == SlotOf(t) && p == ReaderOf(t)) || (o == ReaderOf(t) && p == SlotOf(t))
    requires Mine(s, t, id) == {o} && Mine(s', t, id) == {p}
    requires Doomed(s'.readers[t]) == None && Doomed(s.readers[t]) == None
    ensures SvOk(s', id)
  {
    SameCleaner(s, s', t, id);
    var owners := s.svs[id].owners;
    assert SlotOf(t) in owners <==> Owns(s, SlotOf(t), id);
    assert ReaderOf(t) in owners <==> Owns(s, ReaderOf(t), id);
    assert o in owners && p !in owners;
    assert |owners - {o} + {p}| == |owners|;
    assert p in s'.svs[id].owners;
    SvKept(s, s', t, id);
  }

  lemma {:induction false} CleanersKept(s: State, s': State, t: nat)
    requires OnlyThread(s, s', t) && OneCleaner(s)
    requires Doomed(s'.readers[t]).Some? ==> !Cleaner(s, Doomed(s'.readers[t]).value)
    ensures OneCleaner(s')
  {
    var d := Doomed(s'.readers[t]);
    forall u | u in s'.readers && u != t && d.Some?
      ensures Doomed(s'.readers[u]) != d
    {
      assert u in s.readers;
    }
  }

  /** Thread `t` did nothing to super version `id`. */
  ghost predicate Untouched(s: State, s': State, t: nat, id: nat)
    requires OnlyThread(s, s', t)
  {
    && id < |s.svs| && s'.svs[id] == s.svs[id]
    && (s'.slots[t] == Cached(id) <==> s.slots[t] == Cached(id))
    && (Held(s'.readers[t]) == Some(id) <==> Held(s.readers[t]) == Some(id))
    && (Doomed(s'.readers[t]) == Some(id) <==> Doomed(s.readers[t]) == Some(id))
  }

  /** A thread that deals with super version `x` only. */
  lemma {:induction false} ThreadStepKeeps(s: State, s': State, t: nat, x: nat)
    requires Inv(s) && OnlyThread(s, s', t) && ThreadOk(s', t)
    requires Live(s', t) ==> Live(s, t) || (s.installer.Resting? && s.slots[t].InUse?)
    requires Doomed(s'.readers[t]).Some? ==> !Cleaner(s, Doomed(s'.readers[t]).value)
    requires forall id :: 0 <= id < |s.svs| && id != x ==> Untouched(s, s', t, id)
    requires x < |s.svs| && SvOk(s', x)
    ensures Inv(s')
  {
    ThreadsKept(s, s', t);
    CleanersKept(s, s', t);
    forall id | 0 <= id < |s'.svs|
      ensures SvOk(s', id)
    {
      if id != x {
        assert SvOk(s, id) && Untouched(s, s', t, id);
        SvUntouched(s, s', t, id);
      }
    }
  }

  lemma {:induction false} SwapKeepsSv(s: State, s': State, t: nat, x: nat)
    requires Swap(s, s', t) && x < |s.svs| && SvOk(s, x)
    requires s.slots[t].Cached? ==> x == s.slots[t].id
    ensures SvOk(s', x)
  {
    assert Mine(s, t, x) == if s.slots[t].Cached? then {SlotOf(t)} else {};
    assert Mine(s', t, x) == if s.slots[t].Cached? then {ReaderOf(t)} else {};
    if s.slots[t].Cached? {
      SvPassed(s, s', t, x, SlotOf(t), ReaderOf(t));
    } else {
      SvUntouched(s, s', t, x);
    }
  }

  lemma {:induction false} SwapKeeps(s: State, s': State, t: nat)
    requires Inv(s) && Swap(s, s', t)
    ensures Inv(s') && s.slots[t] != InUse
  {
    assert ThreadOk(s, t);
    var x := if s.slots[t].Cached? then s.slots[t].id else 0;
    assert SvOk(s, x);
    SwapKeepsSv(s, s', t, x);
    ThreadStepKeeps(s, s', t, x);
  }

  /** Steps in which a reader only makes up its mind. */
  lemma {:induction false} DecideKeeps(s: State, s': State, t: nat)
    requires Inv(s) && t in s.readers && t in s'.readers && s' == SetReader(s, t, s'.readers[t])
    requires Held(s'.readers[t]) == Held(s.readers[t]) && Doomed(s.readers[t]) == Doomed(s'.readers[t]) == None
    requires ThreadOk(s, t) ==> ThreadOk(s', t)
    ensures Inv(s')
  {
    assert ThreadOk(s, t) && SvOk(s, 0);
    assert s'.slots == s.slots[t := s.slots[t]];
    SvUntouched(s, s', t, 0);
    ThreadStepKeeps(s, s', t, 0);
  }

  lemma {:induction false} HitKeeps(s: State, s': State, t: nat)
    requires Inv(s) && Hit(s, s', t)
    ensures Inv(s')
  {
    DecideKeeps(s, s', t);
  }

  lemma {:induction false} MissKeeps(s: State, s': State, t: nat)
    requires Inv(s) && Miss(s, s', t)
    ensures Inv(s')
  {
    DecideKeeps(s, s', t);
  }

  lemma {:induction false} LastHasNone(owners: set<Owner>, o: Owner)
    requires o in owners
    ensures |owners| > 0 && |owners - {o}| == |owners| - 1 && (|owners| == 1 <==> owners - {o} == {})
  {
    assert owners == owners - {o} + {o};
  }

  /** A reader gives up its reference; who gives up the last one must clean up. */
  lemma {:induction false} SvDropped(s: State, s': State, t: nat, id: nat)
    requires OnlyThread(s, s', t) && id < |s.svs| && SvOk(s, id) && s'.svs[id] == Give(s.svs[id], ReaderOf(t))
    requires Mine(s, t, id) == {ReaderOf(t)} && Mine(s', t, id) == {} && Doomed(s.readers[t]) == None
    requires Doomed(s'.readers[t]) == if s.svs[id].refs == 1 then Some(id) else None
    ensures SvOk(s', id) && s.svs[id].refs > 0 && !s.svs[id].freed && !Cleaner(s, id)
    ensures s.svs[id].refs == 1 ==> id != s.current
  {
    var owners := s.svs[id].owners;
    assert ReaderOf(t) in {ReaderOf(t)};
    assert SlotOf(t) in owners <==> Owns(s, SlotOf(t), id);
    assert ReaderOf(t) in owners <==> Owns(s, ReaderOf(t), id);
    LastHasNone(owners, ReaderOf(t));
    if s.svs[id].refs == 1 {
      assert Cleaner(s', id);
      assert Database !in owners - {ReaderOf(t)};
    } else {
      SameCleaner(s, s', t, id);
    }
    SvKept(s, s', t, id);
  }

  lemma {:induction false} DropKeeps(s: State, s': State, t: nat, x: nat)
    requires Inv(s) && t in s.readers && t in s'.readers && Held(s.readers[t]) == Some(x) && x < |s.svs|
    requires Doomed(s.readers[t]) == None == Held(s'.readers[t])
    requires s' == SetReader(SetSv(s, x, Give(s.svs[x], ReaderOf(t))), t, s'.readers[t])
    requires Doomed(s'.readers[t]) == if s.svs[x].refs == 1 then Some(x) else None
    requires ThreadOk(s, t) && (Doomed(s'.readers[t]).Some? ==> x < s.current) ==> ThreadOk(s', t)
    ensures Inv(s') && s.svs[x].refs > 0 && !s.svs[x].freed
  {
    assert ThreadOk(s, t) && SvOk(s, x);
    assert s'.slots == s.slots[t := s.slots[t]];
    SvDropped(s, s', t, x);
    ThreadStepKeeps(s, s', t, x);
  }

  lemma {:induction false} DropStaleKeeps(s: State, s': State, t: nat)
    requires Inv(s) && DropStale(s, s', t)
    ensures Inv(s') && s.svs[s.readers[t].id].refs > 0 && !s.svs[s.readers[t].id].freed
  {
    DropKeeps(s, s', t, s.readers[t].id);
  }

  lemma {:induction false} DropRefusedKeeps(s: State, s': State, t: nat)
    requires Inv(s) && DropRefused(s, s', t)
    ensures Inv(s') && s.svs[s.readers[t].id].refs > 0 && !s.svs[s.readers[t].id].freed
  {
    DropKeeps(s, s', t, s.readers[t].id);
  }

  lemma {:induction false} SvFreed(s: State, s': State, t: nat, id: nat)
    requires OnlyThread(s, s', t) && OneCleaner(s) && id < |s.svs| && SvOk(s, id)
    requires s'.svs[id] == s.svs[id].(freed := true) && Doomed(s.readers[t]) == Some(id)
    requires Doomed(s'.readers[t]) == None && Mine(s', t, id) == {}
    ensures SvOk(s', id) && s.svs[id].refs == 0 && !s.svs[id].freed
  {
    assert Cleaner(s, id);
    assert !Cleaner(s', id);
    SvKept(s, s', t, id);
  }

  /** Cleaning up frees a super version without references, once. */
  lemma {:induction false} FreeKeeps(s: State, s': State, t: nat, x: nat)
    requires Inv(s) && t in s.readers && t in s'.readers && Doomed(s.readers[t]) == Some(x) && x < |s.svs|
    requires Held(s.readers[t]) == Held(s'.readers[t]) == None && Doomed(s'.readers[t]) == None
    requires s' == SetReader(SetSv(s, x, s.svs[x].(freed := true)), t, s'.readers[t])
    requires ThreadOk(s, t) ==> ThreadOk(s', t)
    ensures Inv(s') && s.svs[x].refs == 0 && !s.svs[x].freed
  {
    assert ThreadOk(s, t) && SvOk(s, x);
    assert s'.slots == s.slots[t := s.slots[t]];
    assert s.slots[t] != Cached(x);
    SvFreed(s, s', t, x);
    ThreadStepKeeps(s, s', t, x);
  }

  lemma {:induction false} ClearKeeps(s: State, s': State, t: nat)
    requires Inv(s) && Clear(s, s', t)
    ensures Inv(s') && s.svs[s.readers[t].id].refs == 0 && !s.svs[s.readers[t].id].freed
  {
    FreeKeeps(s, s', t, s.readers[t].id);
  }

  lemma {:induction false} DeleteKeeps(s: State, s': State, t: nat)
    requires Inv(s) && Delete(s, s', t)
    ensures Inv(s') && s.svs[s.readers[t].id].refs == 0 && !s.svs[s.readers[t].id].freed
  {
    FreeKeeps(s, s', t, s.readers[t].id);
  }

  lemma {:induction false} SvTaken(s: State, s': State, t: nat, id: nat)
    requires OnlyThread(s, s', t) && id < |s.svs| && SvOk(s, id) && s'.svs[id] == Take(s.svs[id], ReaderOf(t))
    requires Owns(s, Database, id) && Mine(s, t, id) == {} && Mine(s', t, id) == {ReaderOf(t)}
    requires Doomed(s'.readers[t]) == None && Doomed(s.readers[t]) == None
    ensures SvOk(s', id)
  {
    SameCleaner(s, s', t, id);
    var owners := s.svs[id].owners;
    assert SlotOf(t) in owners <==> Owns(s, SlotOf(t), id);
    assert ReaderOf(t) in owners <==> Owns(s, ReaderOf(t), id);
    assert Database in owners;
    SvKept(s, s', t, id);
  }

  lemma {:induction false} AskKeeps(s: State, s': State, t: nat)
    requires Inv(s) && Ask(s, s', t)
    ensures Inv(s')
  {
    assert ThreadOk(s, t) && SvOk(s, s.current);
    assert s'.slots == s.slots[t := s.slots[t]];
    SvTaken(s, s', t, s.current);
    ThreadStepKeeps(s, s', t, s.current);
  }

  lemma {:induction false} ReturnKeeps(s: State, s': State, t: nat)
    requires Inv(s) && Return(s, s', t)
    ensures Inv(s') && (s.slots[t] == InUse || s.slots[t] == Obsolete)
  {
    assert ThreadOk(s, t);
    var x := s.readers[t].id;
    assert SvOk(s, x);
    if s.slots[t] == InUse {
      ReturnHome(s, s', t, x);
    } else {
      DecideKeeps(s, s', t);
    }
  }

  lemma {:induction false} ReturnHome(s: State, s': State, t: nat, x: nat)
    requires Inv(s) && Return(s, s', t) && s.slots[t] == InUse && x == s.readers[t].id && ThreadOk(s, t) && SvOk(s, x)
    ensures Inv(s')
  {
    SvPassed(s, s', t, x, ReaderOf(t), SlotOf(t));
    ThreadStepKeeps(s, s', t, x);
  }

  // ----- Steps of the installer -----

  /** The readers did not move. */
  lemma {:induction false} ReadersKept(s: State, s': State)
    requires InstallerOk(s) && OneCleaner(s) && (forall t :: t in s.readers ==> ThreadOk(s, t))
    requires s'.readers == s.readers && s'.slots == s.slots && s.current <= s'.current && Installed(s) <= Installed(s')
    requires Installed(s) == Installed(s') || s.installer.Dropping? || s.installer.Dropped?
    ensures forall t :: t in s'.readers ==> ThreadOk(s', t)
  {
    forall t | t in s'.readers
      ensures ThreadOk(s', t)
    {
      assert ThreadOk(s, t) && Live(s, t) == Live(s', t);
    }
  }

  lemma {:induction false} SvSameOwners(s: State, s': State, id: nat)
    requires id < |s.svs| && id < |s'.svs| && SvOk(s, id) && s'.svs[id] == s.svs[id].(number := s'.svs[id].number)
    requires s'.readers == s.readers && s'.slots == s.slots
    requires Owns(s, Database, id) <==> Owns(s', Database, id)
    requires forall t :: Owns(s, Scraped(t), id) <==> Owns(s', Scraped(t), id)
    requires (s.installer.Dropped? && s.installer.prev == id) <==> (s'.installer.Dropped? && s'.installer.prev == id)
    ensures SvOk(s', id)
  {
    forall o
      ensures Owns(s, o, id) <==> Owns(s', o, id)
    {
      assert o.Scraped? ==> o == Scraped(o.t);
    }
    assert Cleaner(s, id) <==> Cleaner(s', id);
  }

  lemma {:induction false} MakeKeeps(s: State, s': State)
    requires Inv(s) && Make(s, s')
    ensures Inv(s')
  {
    ReadersKept(s, s');
    forall id | 0 <= id < |s'.svs|
      ensures SvOk(s', id)
    {
      if id < |s.svs| {
        assert SvOk(s, id);
        SvSameOwners(s, s', id);
      } else {
        NewSv(s, s');
      }
    }
  }

  lemma {:induction false} NewSv(s: State, s': State)
    requires Inv(s) && Make(s, s')
    ensures SvOk(s', |s.svs|)
  {
    var id := |s.svs|;
    forall t | t in s.readers
      ensures s.slots[t] != Cached(id) && Held(s.readers[t]) != Some(id) && Doomed(s.readers[t]) != Some(id)
    {
      assert ThreadOk(s, t);
    }
    forall o
      ensures o in s'.svs[id].owners <==> Owns(s', o, id)
    {
      assert o != Database ==> !Owns(s', o, id);
    }
    assert !Cleaner(s', id);
  }

  lemma {:induction false} BumpKeeps(s: State, s': State)
    requires Inv(s) && (Bump(s, s') || SetNumber(s, s') || EndScrape(s, s'))
    ensures Inv(s')
  {
    ReadersKept(s, s');
    forall id | 0 <= id < |s'.svs|
      ensures SvOk(s', id)
    {
      assert SvOk(s, id);
      SvSameOwners(s, s', id);
    }
    assert forall t :: t in s.readers ==> Live(s, t) == Live(s', t);
  }

  lemma {:induction false} OwnsScraped(s: State, s': State, t: nat, id: nat, o: Owner)
    requires Scrape(s, s', t) && o != SlotOf(t) && o != Scraped(t)
    ensures Owns(s, o, id) <==> Owns(s', o, id)
  {
    match o
    case Database =>
    case SlotOf(u) =>
    case ReaderOf(u) =>
    case Scraped(u) =>
  }

  lemma {:induction false} SvScraped(s: State, s': State, t: nat, id: nat)
    requires Scrape(s, s', t) && id < |s.svs| && SvOk(s, id)
    requires s.slots[t].Cached? ==> s.slots[t].id < |s.svs|
    requires t !in s.installer.got
    ensures SvOk(s', id)
  {
    var owners, owners' := s.svs[id].owners, s'.svs[id].owners;
    assert SlotOf(t) in owners <==> s.slots[t] == Cached(id);
    assert Scraped(t) !in owners;
    assert owners' == if s.slots[t] == Cached(id) then owners - {SlotOf(t)} + {Scraped(t)} else owners;
    assert |owners'| == |owners|;
    assert owners' == {} <==> owners == {} by {
      assert s.slots[t] == Cached(id) ==> SlotOf(t) in owners && Scraped(t) in owners';
    }
    forall o
      ensures o in owners' <==> Owns(s', o, id)
    {
      assert o in owners <==> Owns(s, o, id);
      if o != SlotOf(t) && o != Scraped(t) {
        OwnsScraped(s, s', t, id, o);
      }
    }
    assert Cleaner(s, id) <==> Cleaner(s', id);
  }

  lemma {:induction false} ScrapeKeeps(s: State, s': State, t: nat)
    requires Inv(s) && Scrape(s, s', t)
    ensures Inv(s')
  {
    assert ThreadOk(s, t);
    assert s'.slots.Keys == s.slots.Keys;
    forall u | u in s'.readers
      ensures ThreadOk(s', u) && (u != t ==> Live(s', u) == Live(s, u)) && !Live(s', t)
    {
      assert ThreadOk(s, u);
    }
    GotIsDone(s, t);
    forall id | 0 <= id < |s'.svs|
      ensures SvOk(s', id)
    {
      assert SvOk(s, id);
      SvScraped(s, s', t, id);
    }
  }

  /** A slot not scraped yet has given the installer nothing. */
  lemma {:induction false} GotIsDone(s: State, t: nat)
    requires InstallerOk(s) && s.installer.Scraping? && t !in s.installer.done
    ensures t !in s.installer.got
  {
  }

  /** A scraped copy is never the last reference: the database still has its own. */
  lemma {:induction false} SvScrapeDropped(s: State, s': State, t: nat, id: nat)
    requires DropScraped(s, s', t) && id < |s.svs| && SvOk(s, id) && s.installer.got[t] < |s.svs|
    requires s.installer.got[t] == s.installer.prev
    ensures SvOk(s', id)
    ensures id == s.installer.got[t] ==> s.svs[id].refs > 1
  {
    var owners := s.svs[id].owners;
    assert Scraped(t) in owners <==> Owns(s, Scraped(t), id);
    assert Database in owners <==> Owns(s, Database, id);
    if id == s.installer.got[t] {
      LastHasNone(owners, Scraped(t));
      assert Database in owners - {Scraped(t)};
    }
    forall o
      ensures o in s'.svs[id].owners <==> Owns(s', o, id)
    {
      assert o in owners <==> Owns(s, o, id);
    }
    assert Cleaner(s, id) <==> Cleaner(s', id);
  }

  lemma {:induction false} DropScrapedKeeps(s: State, s': State, t: nat)
    requires Inv(s) && DropScraped(s, s', t)
    ensures Inv(s') && s.svs[s.installer.got[t]].refs > 1
  {
    ReadersKept(s, s');
    var x := s.installer.got[t];
    assert SvOk(s, x);
    SvScrapeDropped(s, s', t, x);
    forall id | 0 <= id < |s'.svs|
      ensures SvOk(s', id)
    {
      assert SvOk(s, id);
      SvScrapeDropped(s, s', t, id);
    }
    assert forall u :: u in s.readers ==> Live(s, u) == Live(s', u);
  }

  lemma {:induction false} SvOldDropped(s: State, s': State, p: nat)
    requires DropOld(s, s') && p == s.installer.prev != s.current && SvOk(s, p)
    ensures SvOk(s', p) && s.svs[p].refs > 0 && !s.svs[p].freed && !Cleaner(s, p)
  {
    var owners := s.svs[p].owners;
    assert Database in owners <==> Owns(s, Database, p);
    LastHasNone(owners, Database);
    forall o
      ensures o in s'.svs[p].owners <==> Owns(s', o, p)
    {
      assert o in owners <==> Owns(s, o, p);
      assert !o.Database? ==> (Owns(s, o, p) <==> Owns(s', o, p));
    }
    assert s.svs[p].refs == 1 ==> Cleaner(s', p);
    assert s.svs[p].refs != 1 ==> !Cleaner(s', p);
  }

  lemma {:induction false} DropOldKeeps(s: State, s': State)
    requires Inv(s) && DropOld(s, s')
    ensures Inv(s') && s.svs[s.installer.prev].refs > 0 && !s.svs[s.installer.prev].freed
  {
    ReadersKept(s, s');
    var p := s.installer.prev;
    assert SvOk(s, p);
    SvOldDropped(s, s', p);
    forall id | 0 <= id < |s'.svs|
      ensures SvOk(s', id)
    {
      assert SvOk(s, id);
      if id != p {
        SvSameOwners(s, s', id);
      }
    }
    assert forall u :: u in s.readers ==> Live(s, u) == Live(s', u);
  }

  lemma {:induction false} SvOldFreed(s: State, s': State, id: nat)
    requires CleanOld(s, s') && OneCleaner(s) && id < |s.svs| && SvOk(s, id) && s.installer.prev != s.current
    ensures SvOk(s', id)
    ensures id == s.installer.prev ==> s.svs[id].refs == 0 && !s.svs[id].freed
  {
    assert id == s.installer.prev ==> Cleaner(s, id) && !Cleaner(s', id);
    forall o
      ensures Owns(s, o, id) <==> Owns(s', o, id)
    {
    }
    assert id != s.installer.prev ==> (Cleaner(s, id) <==> Cleaner(s', id));
  }

  lemma {:induction false} CleanOldKeeps(s: State, s': State)
    requires Inv(s) && CleanOld(s, s')
    ensures Inv(s') && s.svs[s.installer.prev].refs == 0 && !s.svs[s.installer.prev].freed
  {
    ReadersKept(s, s');
    var p := s.installer.prev;
    assert SvOk(s, p);
    SvOldFreed(s, s', p);
    forall id | 0 <= id < |s'.svs|
      ensures SvOk(s', id)
    {
      assert SvOk(s, id);
      SvOldFreed(s, s', id);
    }
    assert forall u :: u in s.readers ==> Live(s, u) == Live(s', u);
  }

  // ----- Every run -----

  lemma {:induction false} InitHasInv(s: State)
    requires Init(s)
    ensures Inv(s)
  {
    forall t | t in s.readers
      ensures ThreadOk(s, t)
    {
      assert t in s.slots;
    }
    forall o
      ensures o in s.svs[0].owners <==> Owns(s, o, 0)
    {
    }
    assert !Cleaner(s, 0);
  }

  lemma {:induction false} StepKeepsInv(s: State, s': State)
    requires Inv(s) && Step(s, s')
    ensures Inv(s')
  {
    if t :| ReaderStep(s, s', t) {
      ReaderStepKeeps(s, s', t);
    } else {
      InstallerStepKeeps(s, s');
    }
  }

  lemma {:induction false} ReaderStepKeeps(s: State, s': State, t: nat)
    requires Inv(s) && ReaderStep(s, s', t)
    ensures Inv(s')
  {
    if Swap(s, s', t) {
      SwapKeeps(s, s', t);
    } else if Hit(s, s', t) {
      HitKeeps(s, s', t);
    } else if Miss(s, s', t) {
      MissKeeps(s, s', t);
    } else if DropStale(s, s', t) {
      DropStaleKeeps(s, s', t);
    } else if Clear(s, s', t) {
      ClearKeeps(s, s', t);
    } else if Ask(s, s', t) {
      AskKeeps(s, s', t);
    } else if Return(s, s', t) {
      ReturnKeeps(s, s', t);
    } else if DropRefused(s, s', t) {
      DropRefusedKeeps(s, s', t);
    } else {
      DeleteKeeps(s, s', t);
    }
  }

  lemma {:induction false} InstallerStepKeeps(s: State, s': State)
    requires Inv(s) && InstallerStep(s, s')
    ensures Inv(s')
  {
    if Make(s, s') {
      MakeKeeps(s, s');
    } else if t :| Scrape(s, s', t) {
      ScrapeKeeps(s, s', t);
    } else if t :| DropScraped(s, s', t) {
      DropScrapedKeeps(s, s', t);
    } else if DropOld(s, s') {
      DropOldKeeps(s, s');
    } else if CleanOld(s, s') {
      CleanOldKeeps(s, s');
    } else {
      BumpKeeps(s, s');
    }
  }

  lemma {:induction false} RunKeepsInv(tr: seq<State>)
    requires Run(tr)
    ensures Inv(Last(tr))
  {
    if |tr| == 1 {
      InitHasInv(Last(tr));
    } else {
      var before := tr[..|tr| - 1];
      RunKeepsInv(before);
      StepKeepsInv(Last(before), Last(tr));
    }
  }

  /** A super version's counter is the number of references held: the database's while it is current or
      being retired, one for each slot that caches it, each reader that holds it, and each copy scraped
      and not yet dropped. */
  lemma {:induction false} RefsAreHeld(tr: seq<State>, id: nat)
    requires Run(tr) && id < |Last(tr).svs|
    ensures var s := Last(tr);
            s.svs[id].refs == |s.svs[id].owners| && forall o :: o in s.svs[id].owners <==> Owns(s, o, id)
  {
    RunKeepsInv(tr);
    assert SvOk(Last(tr), id);
  }

  /** What a reader uses has not been freed, and is no older than the last installation that was
      complete when it began. */
  lemma {:induction false} UsedIsAlive(tr: seq<State>, t: nat)
    requires Run(tr) && t in Last(tr).readers && Last(tr).readers[t].Using?
    ensures var s := Last(tr);
            var r := s.readers[t];
            r.id < |s.svs| && !s.svs[r.id].freed && s.svs[r.id].refs > 0 && r.floor <= r.id
  {
    RunKeepsInv(tr);
    var s := Last(tr);
    var r := s.readers[t];
    assert ThreadOk(s, t) && SvOk(s, r.id);
    assert ReaderOf(t) in s.svs[r.id].owners;
    LastHasNone(s.svs[r.id].owners, ReaderOf(t));
  }

  /** Nothing leaks: when nobody is at work, every super version but the current one is freed, and
      the current one is referenced by the database and by the slots that cache it. */
  lemma {:induction false} QuietIsClean(tr: seq<State>, id: nat)
    requires Run(tr) && id < |Last(tr).svs| && Last(tr).installer.Resting?
    requires forall t :: t in Last(tr).readers ==> Last(tr).readers[t].Outside?
    ensures var s := Last(tr);
            && s.current < |s.svs| && (s.svs[id].freed <==> id != s.current)
            && s.svs[s.current].owners == {Database} + (set t | t in s.slots && s.slots[t].Cached? :: SlotOf(t))
  {
    RunKeepsInv(tr);
    var s := Last(tr);
    assert SvOk(s, id) && SvOk(s, s.current);
    forall t | t in s.slots && s.slots[t].Cached?
      ensures s.slots[t].id == s.current
    {
      assert ThreadOk(s, t);
    }
    assert !Cleaner(s, id) && !Cleaner(s, s.current);
    forall o
      ensures Owns(s, o, id) ==> id == s.current
      ensures o in s.svs[s.current].owners <==> o == Database || (o.SlotOf? && o.t in s.slots && s.slots[o.t].Cached?)
    {
      assert o.SlotOf? && o.t in s.slots ==> ThreadOk(s, o.t);
    }
    assert Database in s.svs[s.current].owners;
  }
}
