/**
 Version numbers: when a reader may use its cached super version, and that nobody gets stuck.
 */
module SuperVersionNumbers {
  import opened Keys
  import opened SuperVersions

  // ----- The numbers -----

  /** The new super version has been made and its number is not set yet. */
  predicate Unnumbered(i: Installer) {
    i.Made? || i.Bumped?
  }

  /** Super version `id` has number `id` + 1; the published number is that of the newest one, but for an installer
      that has not published it yet. */
  ghost predicate NumbersOk(s: State) {
    && |s.svs| == s.current + 1
    && (forall id :: 0 <= id < s.current ==> s.svs[id].number == id + 1)
    && s.svs[s.current].number == (if Unnumbered(s.installer) then 0 else s.current + 1)
    && s.number == (if s.installer.Made? then s.current else s.current + 1)
    && (!s.installer.Resting? ==> s.installer.prev + 1 == s.current)
  }

  /** Nobody has a super version whose installation is not complete. */
  ghost predicate NoneEarly(s: State) {
    && (forall t :: t in s.readers && Held(s.readers[t]).Some? ==> Held(s.readers[t]).value <= Installed(s))
    && forall t :: t in s.slots && s.slots[t].Cached? ==> s.slots[t].id <= Installed(s)
  }

  lemma {:induction false} InitNumbers(s: State)
    requires Init(s)
    ensures NumbersOk(s) && NoneEarly(s)
  {
  }

  /** A step that changes no number and no installation. */
  ghost predicate SameNumbers(s: State, s': State) {
    && |s'.svs| == |s.svs| && s'.current == s.current && s'.number == s.number
    && (forall id :: 0 <= id < |s.svs| ==> s'.svs[id].number == s.svs[id].number)
    && Unnumbered(s'.installer) == Unnumbered(s.installer) && s'.installer.Made? == s.installer.Made?
    && (!s'.installer.Resting? ==> !s.installer.Resting? && s'.installer.prev == s.installer.prev)
  }

  lemma {:induction false} SameNumbersKeep(s: State, s': State)
    requires NumbersOk(s) && SameNumbers(s, s')
    ensures NumbersOk(s') && Installed(s) <= Installed(s')
  {
  }

  /** Thread `t` and its slot have what they may have. */
  ghost predicate NotEarly(s: State, t: nat) {
    && (t in s.readers && Held(s.readers[t]).Some? ==> Held(s.readers[t]).value <= Installed(s))
    && (t in s.slots && s.slots[t].Cached? ==> s.slots[t].id <= Installed(s))
  }

  lemma {:induction false} OneThreadMoves(s: State, s': State, t: nat)
    requires NumbersOk(s) && NoneEarly(s) && SameNumbers(s, s') && s'.installer == s.installer && NotEarly(s', t)
    requires t in s'.readers && t in s'.slots
    requires s'.readers == s.readers[t := s'.readers[t]] && s'.slots == s.slots[t := s'.slots[t]]
    ensures NumbersOk(s') && NoneEarly(s')
  {
    SameNumbersKeep(s, s');
  }

  lemma {:induction false} NumbersUntouched(s: State, s': State, id: nat, sv: SuperVersion)
    requires id < |s.svs| && sv.number == s.svs[id].number && s'.svs == s.svs[id := sv]
    requires s'.current == s.current && s'.number == s.number && s'.installer == s.installer
    ensures SameNumbers(s, s')
  {
  }

  lemma {:induction false} GetKeepsNumbers(s: State, s': State, t: nat)
    requires NumbersOk(s) && NoneEarly(s) && t in s.slots
    requires Swap(s, s', t) || Hit(s, s', t) || Miss(s, s', t) || Ask(s, s', t)
    ensures NumbersOk(s') && NoneEarly(s')
  {
    assert SameNumbers(s, s');
    assert s'.slots == s.slots[t := s'.slots[t]];
    OneThreadMoves(s, s', t);
  }

  lemma {:induction false} GiveKeepsNumbers(s: State, s': State, t: nat)
    requires NumbersOk(s) && NoneEarly(s) && t in s.slots
    requires DropStale(s, s', t) || Clear(s, s', t) || DropRefused(s, s', t) || Delete(s, s', t)
    ensures NumbersOk(s') && NoneEarly(s')
  {
    NumbersUntouched(s, s', s.readers[t].id, s'.svs[s.readers[t].id]);
    assert s'.slots == s.slots[t := s'.slots[t]];
    OneThreadMoves(s, s', t);
  }

  lemma {:induction false} ReturnKeepsNumbers(s: State, s': State, t: nat)
    requires NumbersOk(s) && NoneEarly(s) && Return(s, s', t)
    ensures NumbersOk(s') && NoneEarly(s')
  {
    NumbersUntouched(s, s', s.readers[t].id, s'.svs[s.readers[t].id]);
    assert s'.slots == s.slots[t := s'.slots[t]];
    OneThreadMoves(s, s', t);
  }

  lemma {:induction false} ReaderKeepsNumbers(s: State, s': State, t: nat)
    requires NumbersOk(s) && NoneEarly(s) && s.slots.Keys == s.readers.Keys && ReaderStep(s, s', t)
    ensures NumbersOk(s') && NoneEarly(s')
  {
    assert t in s.slots;
    if Return(s, s', t) {
      ReturnKeepsNumbers(s, s', t);
    } else if DropStale(s, s', t) || Clear(s, s', t) || DropRefused(s, s', t) || Delete(s, s', t) {
      GiveKeepsNumbers(s, s', t);
    } else {
      GetKeepsNumbers(s, s', t);
    }
  }

  lemma {:induction false} InstallerKeepsNumbers(s: State, s': State)
    requires NumbersOk(s) && NoneEarly(s) && InstallerStep(s, s')
    ensures NumbersOk(s') && NoneEarly(s')
  {
    if Make(s, s') || Bump(s, s') || SetNumber(s, s') {
    } else {
      RestKeepsNumbers(s, s');
    }
  }

  lemma {:induction false} RestKeepsNumbers(s: State, s': State)
    requires NumbersOk(s) && NoneEarly(s) && InstallerStep(s, s')
    requires !Make(s, s') && !Bump(s, s') && !SetNumber(s, s')
    ensures NumbersOk(s') && NoneEarly(s')
  {
    if t :| Scrape(s, s', t) {
      ScrapeKeepsNumbers(s, s', t);
    } else if t :| DropScraped(s, s', t) {
      ScrapedKeepsNumbers(s, s', t);
    } else {
      assert SameNumbers(s, s') && s'.readers == s.readers && s'.slots == s.slots;
      SameNumbersKeep(s, s');
    }
  }

  lemma {:induction false} ScrapeKeepsNumbers(s: State, s': State, t: nat)
    requires NumbersOk(s) && NoneEarly(s) && Scrape(s, s', t)
    ensures NumbersOk(s') && NoneEarly(s')
  {
    assert SameNumbers(s, s');
    SameNumbersKeep(s, s');
  }

  lemma {:induction false} ScrapedKeepsNumbers(s: State, s': State, t: nat)
    requires NumbersOk(s) && NoneEarly(s) && DropScraped(s, s', t)
    ensures NumbersOk(s') && NoneEarly(s')
  {
    assert SameNumbers(s, s');
    SameNumbersKeep(s, s');
  }

  lemma {:induction false} RunKeepsNumbers(tr: seq<State>)
    requires Run(tr)
    ensures NumbersOk(Last(tr)) && NoneEarly(Last(tr))
  {
    if |tr| == 1 {
      InitNumbers(Last(tr));
    } else {
      var s, s' := Last(tr[..|tr| - 1]), Last(tr);
      RunKeepsNumbers(tr[..|tr| - 1]);
      if t :| ReaderStep(s, s', t) {
        RunKeepsInv(tr[..|tr| - 1]);
        ReaderKeepsNumbers(s, s', t);
      } else {
        InstallerKeepsNumbers(s, s');
      }
    }
  }

  /** A cached super version is used exactly while no newer number has been published: it is the current one, or the
      one before it while the installer has not bumped the number yet. */
  lemma {:induction false} HitIsCurrent(tr: seq<State>, s': State, t: nat)
    requires Run(tr) && Hit(Last(tr), s', t)
    ensures var s := Last(tr);
            && s'.readers[t].Using? && s'.readers[t].id == s.readers[t].got.id
            && s'.readers[t].id == if s.installer.Made? then s.installer.prev else s.current
  {
    RunKeepsNumbers(tr);
  }

  /** A cached super version is thrown away only when a newer number than its own has been published. */
  lemma {:induction false} MissIsStale(tr: seq<State>, s': State, t: nat)
    requires Run(tr) && Miss(Last(tr), s', t) && Last(tr).readers[t].got.Cached?
    ensures var s := Last(tr);
            var id := s.readers[t].got.id;
            && s'.readers[t].Stale? && s'.readers[t].id == id
            && id < s.current && 0 < s.svs[id].number == id + 1 < s.number
  {
    RunKeepsNumbers(tr);
    StaleIsOlder(Last(tr), t);
  }

  lemma {:induction false} StaleIsOlder(s: State, t: nat)
    requires NumbersOk(s) && NoneEarly(s) && t in s.readers && s.readers[t].Swapped? && s.readers[t].got.Cached?
    requires s.readers[t].got.id < |s.svs| && s.svs[s.readers[t].got.id].number != s.number
    ensures var id := s.readers[t].got.id; id < s.current && 0 < s.svs[id].number == id + 1 < s.number
  {
    assert Held(s.readers[t]) == Some(s.readers[t].got.id);
  }

  /** Which of the two happens is decided by the number alone. */
  lemma {:induction false} CachedDecides(tr: seq<State>, t: nat)
    requires Run(tr) && t in Last(tr).readers && Last(tr).readers[t].Swapped? && Last(tr).readers[t].got.Cached?
    ensures var s := Last(tr);
            var id := s.readers[t].got.id;
            var newest := id == if s.installer.Made? then s.installer.prev else s.current;
            && (newest <==> exists s' :: Hit(s, s', t)) && (!newest <==> exists s' :: Miss(s, s', t))
  {
    RunKeepsNumbers(tr);
    var s := Last(tr);
    var r := s.readers[t];
    assert Held(r) == Some(r.got.id);
    if s.svs[r.got.id].number == s.number {
      assert Hit(s, SetReader(s, t, Using(r.got.id, r.floor)), t);
    } else {
      assert Miss(s, SetReader(s, t, Stale(r.got.id, r.floor)), t);
    }
  }

  // ----- Nobody gets stuck -----

  ghost predicate CanStep(s: State, t: nat) {
    exists s' :: ReaderStep(s, s', t)
  }

  /** A reader can always go on, unless it waits for the mutex of an installer at work. */
  lemma {:induction false} ReaderGoesOn(tr: seq<State>, t: nat)
    requires Run(tr) && t in Last(tr).readers
    ensures CanStep(Last(tr), t) <==> !(Last(tr).readers[t].Asking? && !Last(tr).installer.Resting?)
  {
    var s := Last(tr);
    RunKeepsInv(tr);
    assert ThreadOk(s, t);
    if !(s.readers[t].Asking? && !s.installer.Resting?) {
      var s' := NextOfReader(s, t);
    }
  }

  lemma {:induction false} NextOfReader(s: State, t: nat) returns (s': State)
    requires InstallerOk(s) && t in s.readers && t in s.slots && ThreadOk(s, t)
    requires s.readers[t].Asking? ==> s.installer.Resting?
    ensures ReaderStep(s, s', t)
  {
    match s.readers[t]
    case Outside =>
      var c, moved := s.slots[t], SetSlot(SetReader(s, t, Swapped(s.slots[t], Installed(s))), t, InUse);
      s' := if c.Cached? && c.id < |s.svs| then SetSv(moved, c.id, Pass(s.svs[c.id], SlotOf(t), ReaderOf(t)))
            else moved;
      assert Swap(s, s', t);
    case Swapped(c, f) =>
      s' := if !c.Cached? then SetReader(s, t, Asking(f))
            else if s.svs[c.id].number == s.number then SetReader(s, t, Using(c.id, f))
            else SetReader(s, t, Stale(c.id, f));
      assert Hit(s, s', t) || Miss(s, s', t);
    case Stale(id, f) =>
      s' := SetReader(SetSv(s, id, Give(s.svs[id], ReaderOf(t))), t,
                      if s.svs[id].refs == 1 then Clearing(id, f) else Asking(f));
      assert DropStale(s, s', t);
    case Clearing(id, f) =>
      s' := SetReader(SetSv(s, id, s.svs[id].(freed := true)), t, Asking(f));
      assert Clear(s, s', t);
    case Asking(f) =>
      var c := s.current;
      s' := SetReader(SetSv(s, c, Take(s.svs[c], ReaderOf(t))), t, Using(c, f));
      assert Ask(s, s', t);
    case Using(id, f) =>
      s' := if s.slots[t] == InUse
            then SetSlot(SetReader(SetSv(s, id, Pass(s.svs[id], ReaderOf(t), SlotOf(t))), t, Outside), t, Cached(id))
            else SetReader(s, t, Refused(id));
      assert Return(s, s', t);
    case Refused(id) =>
      s' := SetReader(SetSv(s, id, Give(s.svs[id], ReaderOf(t))), t,
                      if s.svs[id].refs == 1 then Deleting(id) else Outside);
      assert DropRefused(s, s', t);
    case Deleting(id) =>
      s' := SetReader(SetSv(s, id, s.svs[id].(freed := true)), t, Outside);
      assert Delete(s, s', t);
  }

  /** The installer can always go on. */
  lemma {:induction false} InstallerGoesOn(tr: seq<State>)
    requires Run(tr)
    ensures exists s' :: InstallerStep(Last(tr), s')
  {
    var s := Last(tr);
    RunKeepsInv(tr);
    var s' := NextOfInstaller(s);
    assert InstallerStep(s, s');
  }

  lemma {:induction false} NextOfInstaller(s: State) returns (s': State)
    requires InstallerOk(s)
    ensures InstallerStep(s, s')
  {
    match s.installer
    case Resting =>
      s' := s.(svs := s.svs + [SuperVersion(1, 0, false, {Database})], current := |s.svs|,
               installer := Made(s.current));
      assert Make(s, s');
    case Made(p) =>
      s' := s.(number := s.number + 1, installer := Bumped(p));
      assert Bump(s, s');
    case Bumped(p) =>
      s' := SetSv(s, s.current, s.svs[s.current].(number := s.number)).(installer := Scraping(p, {}, map[]));
      assert SetNumber(s, s');
    case Scraping(_, _, _) =>
      s' := NextOfScrape(s);
    case Dropping(p) =>
      s' := SetSv(s, p, Give(s.svs[p], Database)).(installer := if s.svs[p].refs == 1 then Dropped(p) else Resting);
      assert DropOld(s, s');
    case Dropped(p) =>
      s' := SetSv(s, p, s.svs[p].(freed := true)).(installer := Resting);
      assert CleanOld(s, s');
  }

  lemma {:induction false} NextOfScrape(s: State) returns (s': State)
    requires InstallerOk(s) && s.installer.Scraping?
    ensures InstallerStep(s, s')
  {
    var i := s.installer;
    if t :| t in s.slots && t !in i.done {
      var c, moved := s.slots[t], SetSlot(s, t, Obsolete);
      s' := if c.Cached? && c.id < |s.svs|
            then SetSv(moved, c.id, Pass(s.svs[c.id], SlotOf(t), Scraped(t))).(
                   installer := i.(done := i.done + {t}, got := i.got[t := c.id]))
            else moved.(installer := i.(done := i.done + {t}));
      assert Scrape(s, s', t);
    } else if t :| t in i.got {
      s' := SetSv(s, i.got[t], Give(s.svs[i.got[t]], Scraped(t))).(installer := i.(got := i.got - {t}));
      assert DropScraped(s, s', t);
    } else {
      assert i.got == map[];
      s' := s.(installer := Dropping(i.prev));
      assert EndScrape(s, s');
    }
  }
}
