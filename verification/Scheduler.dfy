/**
 Choosing the files of a compaction while other compactions are in flight.
 */
module Scheduler {
  import opened Keys
  import opened Versions
  import opened VersionBuilder
  import Merge

  /** A compaction in flight: files of `level` and the files of the next level they overlap. */
  datatype Job = Job(level: nat, in0: seq<File>, in1: seq<File>)

  function Inputs(j: Job): seq<File> {
    j.in0 + j.in1
  }

  predicate Overlaps(f: File, lo: UserKey, hi: UserKey) {
    !(f.largest.user < lo) && !(hi < f.smallest.user)
  }

  // ----- GetRange -----

  /** The smallest and largest user key of a list of files. */
  ghost predicate IsRange(fs: seq<File>, lo: UserKey, hi: UserKey) {
    && (forall f :: f in fs ==> lo <= f.smallest.user && f.largest.user <= hi)
    && (exists f :: f in fs && f.smallest.user == lo)
    && (exists f :: f in fs && f.largest.user == hi)
  }

  method GetRange(inputs: seq<File>) returns (smallest: IKey, largest: IKey)
    requires inputs != []
    ensures IsRange(inputs, smallest.user, largest.user)
  {
    smallest, largest := inputs[0].smallest, inputs[0].largest;
    ghost var a, b := 0, 0;
    for i := 1 to |inputs|
      invariant 0 <= a < i && 0 <= b < i && inputs[a].smallest == smallest && inputs[b].largest == largest
      invariant forall j :: 0 <= j < i ==>
                  smallest.user <= inputs[j].smallest.user && inputs[j].largest.user <= largest.user
    {
      if Compare(inputs[i].smallest, smallest) < 0 {
        smallest := inputs[i].smallest;
        a := i;
      }
      if Compare(inputs[i].largest, largest) > 0 {
        largest := inputs[i].largest;
        b := i;
      }
    }
    assert inputs[a] in inputs && inputs[b] in inputs;
  }

  // ----- GetOverlappingInputs -----

  /** The files of a level that meet [lo, hi], in order. */
  function Meeting(files: seq<File>, lo: UserKey, hi: UserKey): seq<File> {
    if files == [] then []
    else Meeting(files[..|files| - 1], lo, hi)
         + if Overlaps(files[|files| - 1], lo, hi) then [files[|files| - 1]] else []
  }

  lemma {:induction false} MeetingElements(files: seq<File>, lo: UserKey, hi: UserKey)
    ensures forall f :: f in Meeting(files, lo, hi) <==> f in files && Overlaps(f, lo, hi)
  {
    if files != [] {
      MeetingElements(files[..|files| - 1], lo, hi);
      assert files == files[..|files| - 1] + [files[|files| - 1]];
    }
  }

  ghost predicate NoneFlagged(fs: seq<File>, under: set<Id>) {
    forall f :: f in fs ==> IdOf(f) !in under
  }

  /** Every file that meets the range lies in it. */
  ghost predicate ClosedRange(files: seq<File>, lo: UserKey, hi: UserKey) {
    forall f :: f in files && Overlaps(f, lo, hi) ==> lo <= f.smallest.user && f.largest.user <= hi
  }

  /** The range lies in every closed one that contains [lo0, hi0]. */
  ghost predicate Inside(files: seq<File>, lo0: UserKey, hi0: UserKey, lo: UserKey, hi: UserKey) {
    forall l, h :: ClosedRange(files, l, h) && l <= lo0 && hi0 <= h ==> l <= lo && hi <= h
  }

  /** The least closed range that contains [lo0, hi0]. */
  ghost predicate Closure(files: seq<File>, lo0: UserKey, hi0: UserKey, lo: UserKey, hi: UserKey) {
    lo <= lo0 && hi0 <= hi && ClosedRange(files, lo, hi) && Inside(files, lo0, hi0, lo, hi)
  }

  /** How often files reach beyond a range. */
  function Beyond(files: seq<File>, lo: UserKey, hi: UserKey): nat {
    if files == [] then 0
    else
      var f := files[|files| - 1];
      Beyond(files[..|files| - 1], lo, hi)
      + (if f.smallest.user < lo then 1 else 0) + if f.largest.user > hi then 1 else 0
  }

  lemma {:induction false} BeyondShrinks(files: seq<File>, lo: UserKey, hi: UserKey, lo': UserKey, hi': UserKey)
    requires lo' <= lo && hi <= hi'
    ensures Beyond(files, lo', hi') <= Beyond(files, lo, hi)
    ensures (exists f :: f in files && (lo' <= f.smallest.user < lo || hi < f.largest.user <= hi')) ==>
              Beyond(files, lo', hi') < Beyond(files, lo, hi)
  {
    if files != [] {
      BeyondShrinks(files[..|files| - 1], lo, hi, lo', hi');
      assert files == files[..|files| - 1] + [files[|files| - 1]];
    }
  }

  lemma {:induction false} InsideGrows(files: seq<File>, lo0: UserKey, hi0: UserKey, lo: UserKey, hi: UserKey, f: File)
    requires Inside(files, lo0, hi0, lo, hi) && f in files && Overlaps(f, lo, hi)
    ensures Inside(files, lo0, hi0, f.smallest.user, hi) && Inside(files, lo0, hi0, lo, f.largest.user)
  {
    forall l, h | ClosedRange(files, l, h) && l <= lo0 && hi0 <= h
      ensures l <= f.smallest.user && f.largest.user <= h
    {
      assert Overlaps(f, l, h);
    }
  }

  /** The files that meet the range, unless one of them is taken.  On level 0 the range first grows until it
      contains every file it meets. */
  method GetOverlappingInputs(level: nat, files: seq<File>, under: set<Id>, lo0: UserKey, hi0: UserKey)
      returns (ok: bool, inputs: seq<File>)
    ensures level > 0 ==> (ok <==> NoneFlagged(Meeting(files, lo0, hi0), under))
    ensures level > 0 && ok ==> inputs == Meeting(files, lo0, hi0)
    ensures level == 0 && ok ==> exists lo, hi :: Closure(files, lo0, hi0, lo, hi) && inputs == Meeting(files, lo, hi)
    ensures ok ==> NoneFlagged(inputs, under)
    ensures level == 0 && !ok ==>
              forall lo, hi :: Closure(files, lo0, hi0, lo, hi) ==> !NoneFlagged(Meeting(files, lo, hi), under)
  {
    var lo, hi, i := lo0, hi0, 0;
    inputs := [];
    while i < |files|
      invariant i <= |files| && inputs == Meeting(files[..i], lo, hi) && NoneFlagged(inputs, under)
      invariant lo <= lo0 && hi0 <= hi && (level > 0 ==> lo == lo0 && hi == hi0)
      invariant Inside(files, lo0, hi0, lo, hi)
      invariant level == 0 ==> forall f :: f in inputs ==> lo <= f.smallest.user && f.largest.user <= hi
      decreases Beyond(files, lo, hi), |files| - i
    {
      var f := files[i];
      assert files[..i + 1][..i] == files[..i];
      i := i + 1;
      if f.largest.user < lo {
      } else if f.smallest.user > hi {
      } else if IdOf(f) in under {
        TakenInside(files, under, lo0, hi0, lo, hi, f);
        return false, inputs;
      } else {
        inputs := inputs + [f];
        if level == 0 && f.smallest.user < lo {
          InsideGrows(files, lo0, hi0, lo, hi, f);
          BeyondShrinks(files, lo, hi, f.smallest.user, hi);
          lo, inputs, i := f.smallest.user, [], 0;
        } else if level == 0 && f.largest.user > hi {
          InsideGrows(files, lo0, hi0, lo, hi, f);
          BeyondShrinks(files, lo, hi, lo, f.largest.user);
          hi, inputs, i := f.largest.user, [], 0;
        }
      }
    }
    assert files[..|files|] == files;
    MeetingElements(files, lo, hi);
    ok := true;
  }

  lemma {:induction false} TakenInside(files: seq<File>, under: set<Id>, lo0: UserKey, hi0: UserKey, lo: UserKey,
      hi: UserKey, f: File)
    requires Inside(files, lo0, hi0, lo, hi) && f in files && Overlaps(f, lo, hi) && IdOf(f) in under
    ensures !NoneFlagged(Meeting(files, lo, hi), under)
    ensures forall l, h :: Closure(files, lo0, hi0, l, h) ==> !NoneFlagged(Meeting(files, l, h), under)
  {
    MeetingElements(files, lo, hi);
    forall l, h | Closure(files, lo0, hi0, l, h)
      ensures !NoneFlagged(Meeting(files, l, h), under)
    {
      MeetingElements(files, l, h);
      assert Overlaps(f, l, h);
    }
  }

  // ----- PickFileToCompact -----

  /** The files taken from a level >= 1 when file `i` is chosen: also its successor when the two
      share a boundary user key. */
  function Chosen(files: seq<File>, i: nat): seq<File>
    requires i < |files|
  {
    if i + 1 < |files| && files[i + 1].smallest.user == files[i].largest.user
    then [files[i], files[i + 1]] else [files[i]]
  }

  /** The inputs form a compaction the source may start. */
  ghost predicate Picks(levels: seq<seq<File>>, inProgress: seq<seq<File>>, under: set<Id>, j: Job)
    requires |levels| == NUM_LEVELS && |inProgress| == NUM_LEVELS
  {
    && j.level + 1 < NUM_LEVELS
    && (if j.level == 0 then inProgress[0] == [] && j.in0 == levels[0] && j.in0 != []
        else exists i :: 0 <= i < |levels[j.level]| && IdOf(levels[j.level][i]) !in under
                         && j.in0 == Chosen(levels[j.level], i))
    && TakesFree(j.in0, levels[j.level + 1], under, j.in1)
  }

  /** File `i` cannot be compacted now: it is taken, or it meets a file of the next level that is. */
  ghost predicate Blocked(files: seq<File>, next: seq<File>, under: set<Id>, i: nat)
    requires i < |files|
  {
    || IdOf(files[i]) in under
    || forall lo, hi :: IsRange(Chosen(files, i), lo, hi) ==> !NoneFlagged(Meeting(next, lo, hi), under)
  }

  ghost predicate AllBlocked(files: seq<File>, next: seq<File>, under: set<Id>) {
    forall i :: 0 <= i < |files| ==> Blocked(files, next, under, i)
  }

  lemma {:induction false} RangeIsUnique(fs: seq<File>, lo: UserKey, hi: UserKey, lo': UserKey, hi': UserKey)
    requires IsRange(fs, lo, hi) && IsRange(fs, lo', hi')
    ensures lo == lo' && hi == hi'
  {
  }

  /** `in1` is what a compaction of `in0` takes from the next level, and all of it is free. */
  ghost predicate TakesFree(in0: seq<File>, next: seq<File>, under: set<Id>, in1: seq<File>) {
    exists lo, hi :: IsRange(in0, lo, hi) && in1 == Meeting(next, lo, hi) && NoneFlagged(in1, under)
  }

  /** Looks for the files of the next level; fails exactly when one of them is taken. */
  method TakeNextLevel(in0: seq<File>, next: seq<File>, under: set<Id>) returns (ok: bool, in1: seq<File>)
    requires in0 != []
    ensures ok ==> TakesFree(in0, next, under, in1)
    ensures !ok ==> forall lo, hi :: IsRange(in0, lo, hi) ==> !NoneFlagged(Meeting(next, lo, hi), under)
  {
    var smallest, largest := GetRange(in0);
    ok, in1 := GetOverlappingInputs(1, next, under, smallest.user, largest.user);
    if !ok {
      forall lo, hi | IsRange(in0, lo, hi)
        ensures !NoneFlagged(Meeting(next, lo, hi), under)
      {
        RangeIsUnique(in0, lo, hi, smallest.user, largest.user);
      }
    }
  }

  /** The search of a level >= 1, beginning with file `start` and wrapping round once. */
  method SearchLevel(files: seq<File>, next: seq<File>, under: set<Id>, start: nat)
      returns (found: bool, index: nat, in1: seq<File>)
    requires start < |files|
    ensures found ==> index < |files| && IdOf(files[index]) !in under
    ensures found ==> TakesFree(Chosen(files, index), next, under, in1)
    ensures found ==>
              forall i :: 0 <= i < |files| && (if start <= index then start <= i < index else start <= i || i < index)
                ==> Blocked(files, next, under, i)
    ensures !found ==> AllBlocked(files, next, under)
  {
    index := start;
    var counter := 0;
    in1 := [];
    while counter < |files|
      invariant 0 <= counter <= |files|
      invariant index == if start + counter < |files| then start + counter else start + counter - |files|
      invariant forall i :: 0 <= i < |files| && (start <= i < start + counter || i < start + counter - |files|)
                            ==> Blocked(files, next, under, i)
    {
      if IdOf(files[index]) !in under {
        found, in1 := TakeNextLevel(Chosen(files, index), next, under);
        if found {
          return;
        }
      }
      index := if index + 1 < |files| then index + 1 else 0;
      counter := counter + 1;
    }
    found := false;
  }

  /** `start` is the random file the search begins with. */
  method PickFileToCompact(levels: seq<seq<File>>, inProgress0: seq<seq<File>>, under0: set<Id>, level: nat, start: nat)
      returns (picked: bool, j: Job, inProgress: seq<seq<File>>, under: set<Id>)
    requires |levels| == NUM_LEVELS && |inProgress0| == NUM_LEVELS && level + 1 < NUM_LEVELS
    requires start < |levels[level]|
    ensures |inProgress| == NUM_LEVELS
    ensures picked ==> j.level == level && Picks(levels, inProgress0, under0, j)
    ensures picked ==> under == under0 + IdsOf(Elements(Inputs(j)))
    ensures picked ==> inProgress == inProgress0[level := inProgress0[level] + j.in0]
                                                [level + 1 := inProgress0[level + 1] + j.in1]
    ensures !picked ==> under == under0 && inProgress == inProgress0
    ensures !picked && level > 0 ==> AllBlocked(levels[level], levels[level + 1], under0)
    ensures !picked && level == 0 ==>
              || inProgress0[0] != []
              || forall lo, hi :: IsRange(levels[0], lo, hi) ==> !NoneFlagged(Meeting(levels[1], lo, hi), under0)
  {
    picked, j, inProgress, under := false, Job(level, [], []), inProgress0, under0;
    if level == 0 {
      if |inProgress[0]| > 0 {
        return;
      }
      var ok, in1 := TakeNextLevel(levels[0], levels[1], under);
      if !ok {
        return;
      }
      j := Job(0, levels[0], in1);
    } else {
      var found, index, in1 := SearchLevel(levels[level], levels[level + 1], under, start);
      if !found {
        return;
      }
      j := Job(level, Chosen(levels[level], index), in1);
    }
    picked := true;
    under := under + IdsOf(Elements(j.in0)) + IdsOf(Elements(j.in1));
    assert Elements(Inputs(j)) == Elements(j.in0) + Elements(j.in1);
    inProgress := inProgress[level := inProgress[level] + j.in0];
    inProgress := inProgress[level + 1 := inProgress[level + 1] + j.in1];
  }

  // ----- The shared-boundary branch -----

  /** On a level whose files do not touch, exactly one file is chosen. */
  lemma {:induction false} ChosenIsOne(files: seq<File>, i: nat)
    requires LevelOk(files) && i < |files|
    ensures Chosen(files, i) == [files[i]]
  {
    assert i + 1 < |files| ==> Before(files[i], files[i + 1]);
  }

  /** The bounds of a file are those a merge or a flush records: the smallest is its first key, the largest is
      its last one or a later one of the same user key that was dropped. */
  ghost predicate Tight(f: File) {
    FileOk(f) && Merge.TightBounds(Merge.Table(f.smallest, f.largest, f.entries))
  }

  /** `f` ends before `g` begins; on a shared user key the older versions are in `g`. */
  predicate Precedes(f: File, g: File) {
    || f.largest.user < g.smallest.user
    || (f.largest.user == g.smallest.user && f.largest.seqno > g.smallest.seqno)
  }

  /** A level ordered by internal key: what a merge that keeps several versions of a key leaves behind. */
  ghost predicate OrderedByKey(files: seq<File>) {
    && (forall f :: f in files ==> Tight(f))
    && forall i, j :: 0 <= i < j < |files| ==> Precedes(files[i], files[j])
  }

  predicate SharesNext(files: seq<File>, i: nat)
    requires i < |files|
  {
    i + 1 < |files| && files[i + 1].smallest.user == files[i].largest.user
  }

  /** Everything left on the level is newer than the files taken from it, as a shallower level must be. */
  ghost predicate LeavesNewer(files: seq<File>, taken: seq<File>) {
    forall f, g :: f in files && f !in taken && g in taken ==> NewerThan(f, g)
  }

  lemma {:induction false} TightFacts(f: File, a: Entry)
    requires Tight(f) && a in f.entries
    ensures f.smallest.user <= a.key.user <= f.largest.user
    ensures a.key.user == f.smallest.user ==> a.key.seqno <= f.smallest.seqno
    ensures a.key.user == f.largest.user ==> a.key.seqno >= f.largest.seqno
  {
    var i :| 0 <= i < |f.entries| && f.entries[i] == a;
    if 0 < i {
      SortedFacts(f.entries, 0, i);
    }
    if i < |f.entries| - 1 {
      SortedFacts(f.entries, i, |f.entries| - 1);
    }
  }

  lemma {:induction false} EarlierIsNewer(f: File, g: File)
    requires Tight(f) && Tight(g) && Precedes(f, g)
    ensures NewerThan(f, g)
  {
    forall a, b | a in f.entries && b in g.entries && a.key.user == b.key.user
      ensures a.key.seqno > b.key.seqno
    {
      TightFacts(f, a);
      TightFacts(g, b);
    }
  }

  /** A later file is newer only where it shares nothing. */
  lemma {:induction false} LaterIsNewer(f: File, g: File)
    requires Tight(f) && Tight(g) && Precedes(f, g)
    ensures NewerThan(g, f) <==> f.largest.user < g.smallest.user
  {
    if f.largest.user < g.smallest.user {
      forall a, b | a in g.entries && b in f.entries
        ensures a.key.user != b.key.user
      {
        TightFacts(g, a);
        TightFacts(f, b);
      }
    } else {
      assert g.entries[0] in g.entries && f.entries[|f.entries| - 1] in f.entries;
    }
  }

  lemma {:induction false} PlacesDiffer(files: seq<File>, i: nat, j: nat)
    requires OrderedByKey(files) && i < j < |files|
    ensures files[i] != files[j]
  {
    assert Tight(files[i]);
    TightFacts(files[i], files[i].entries[0]);
  }

  /** The last of the files taken for `i`. */
  function LastTaken(files: seq<File>, i: nat): nat
    requires i < |files|
  {
    if SharesNext(files, i) then i + 1 else i
  }

  lemma {:induction false} ChosenPlaces(files: seq<File>, i: nat, k: nat)
    requires OrderedByKey(files) && i < |files| && k < |files|
    ensures files[k] in Chosen(files, i) <==> i <= k <= LastTaken(files, i)
  {
    if k < i {
      PlacesDiffer(files, k, i);
    } else if i < k {
      PlacesDiffer(files, i, k);
    }
    if SharesNext(files, i) {
      if k < i + 1 {
        PlacesDiffer(files, k, i + 1);
      } else if i + 1 < k {
        PlacesDiffer(files, i + 1, k);
      }
    }
  }

  /** What the search leaves on the level is newer exactly when the last file taken shares no user key
      with the file behind it. */
  lemma {:induction false} LeavesNewerExactly(files: seq<File>, i: nat)
    requires OrderedByKey(files) && i < |files|
    ensures LeavesNewer(files, Chosen(files, i)) <==> !SharesNext(files, LastTaken(files, i))
  {
    var last := LastTaken(files, i);
    ChosenPlaces(files, i, last);
    if SharesNext(files, last) {
      ChosenPlaces(files, i, last + 1);
      LaterIsNewer(files[last], files[last + 1]);
    } else {
      forall f, g | f in files && f !in Chosen(files, i) && g in Chosen(files, i)
        ensures NewerThan(f, g)
      {
        var k :| 0 <= k < |files| && files[k] == f;
        var t :| i <= t <= last && files[t] == g;
        ChosenPlaces(files, i, k);
        if k < i {
          EarlierIsNewer(f, g);
        } else {
          BehindSharesNothing(files, t, last, k);
          LaterIsNewer(g, f);
        }
      }
    }
  }

  lemma {:induction false} BehindSharesNothing(files: seq<File>, t: nat, last: nat, k: nat)
    requires OrderedByKey(files) && t <= last < k < |files| && !SharesNext(files, last)
    ensures files[t].largest.user < files[k].smallest.user
  {
    assert Precedes(files[last], files[last + 1]);
    assert Tight(files[last + 1]) && Tight(files[last]);
    assert last + 1 < k ==> Precedes(files[last + 1], files[k]);
    assert t < last ==> Precedes(files[t], files[last]);
  }

  /** When the pick on a level with shared boundary keys is sound: the files taken are free and everything
      left behind is newer, exactly when the file chosen shares no boundary key with its successor, or the
      successor is free and shares none with its own.  The search tests neither. */
  lemma {:induction false} PickIsSound(files: seq<File>, under: set<Id>, i: nat)
    requires OrderedByKey(files) && i < |files| && IdOf(files[i]) !in under
    ensures NoneFlagged(Chosen(files, i), under) && LeavesNewer(files, Chosen(files, i))
       <==> !SharesNext(files, i) || (IdOf(files[i + 1]) !in under && !SharesNext(files, i + 1))
  {
    LeavesNewerExactly(files, i);
    if SharesNext(files, i) {
      assert files[i + 1] in Chosen(files, i);
    }
  }

  /** A file of two entries. */
  function Pair(number: nat, lo: IKey, hi: IKey): File {
    File(number, 0, 0, lo, hi, [Entry(lo, []), Entry(hi, [])])
  }

  lemma {:induction false} PairIsTight(number: nat, lo: IKey, hi: IKey)
    requires lo.kind == hi.kind == Value && lo.user < hi.user
    ensures Tight(Pair(number, lo, hi))
  {
    var es := Pair(number, lo, hi).entries;
    assert Less(es[0].key, es[1].key);
    assert forall i :: 0 <= i < |es| ==> es[i].key == lo || es[i].key == hi;
  }

  lemma {:induction false} BothTaken(f: File, g: File, under: set<Id>)
    requires f.smallest.user <= g.smallest.user && f.largest.user <= g.largest.user
    ensures TakesFree([f, g], [], under, [])
  {
    assert f in [f, g] && g in [f, g];
    assert IsRange([f, g], f.smallest.user, g.largest.user);
    assert Meeting([], f.smallest.user, g.largest.user) == [];
  }

  /** A level of three free files where the older version of a key stays behind: the search looks only one
      file ahead. */
  lemma {:induction false} OlderStaysBehind(f: File, g: File, h: File)
    requires f == Pair(1, IKey(1.0, 9, Value), IKey(2.0, 8, Value))
    requires g == Pair(2, IKey(2.0, 7, Value), IKey(3.0, 6, Value))
    requires h == Pair(3, IKey(3.0, 5, Value), IKey(4.0, 4, Value))
    ensures OrderedByKey([f, g, h])
    ensures Chosen([f, g, h], 0) == [f, g] && TakesFree([f, g], [], {}, [])
    ensures NoneFlagged([f, g], {}) && !LeavesNewer([f, g, h], [f, g])
  {
    PairIsTight(1, f.smallest, f.largest);
    PairIsTight(2, g.smallest, g.largest);
    PairIsTight(3, h.smallest, h.largest);
    assert Precedes(f, g) && Precedes(g, h) && Precedes(f, h);
    LeavesNewerExactly([f, g, h], 0);
    BothTaken(f, g, {});
  }

  /** A level where the search hands out a file that another compaction holds. */
  lemma {:induction false} TakenFileIsPicked(f: File, g: File)
    requires f == Pair(1, IKey(1.0, 9, Value), IKey(2.0, 8, Value))
    requires g == Pair(2, IKey(2.0, 7, Value), IKey(3.0, 6, Value))
    ensures OrderedByKey([f, g])
    ensures Chosen([f, g], 0) == [f, g] && IdOf(f) != IdOf(g)
    ensures TakesFree([f, g], [], {IdOf(g)}, []) && !NoneFlagged([f, g], {IdOf(g)})
  {
    PairIsTight(1, f.smallest, f.largest);
    PairIsTight(2, g.smallest, g.largest);
    assert Precedes(f, g);
    BothTaken(f, g, {IdOf(g)});
    assert g in [f, g];
  }
}
