/**
 A version: the tables of each level, and how a read walks them.
 */
module Versions {
  import opened Keys

  const NUM_LEVELS := 6

  /** A table and its metadata.  `number` and `creator` identify it. */
  datatype File = File(number: nat, creator: nat, size: nat, smallest: IKey, largest: IKey, entries: seq<Entry>)

  ghost predicate FileOk(f: File) {
    && Sorted(f.entries)
    && f.smallest.user <= f.largest.user
    && forall i :: 0 <= i < |f.entries| ==>
         && Parses(f.entries[i].key)
         && f.smallest.user <= f.entries[i].key.user <= f.largest.user
         && !Less(f.largest, f.entries[i].key)
  }

  predicate Covers(f: File, k: UserKey) {
    f.smallest.user <= k <= f.largest.user
  }

  predicate Before(f: File, g: File) {
    f.largest.user < g.smallest.user
  }

  /** User-key ranges that do not meet. */
  predicate Apart(f: File, g: File) {
    Before(f, g) || Before(g, f)
  }

  /** Every entry `f` and `g` share a user key for is newer in `f`. */
  ghost predicate NewerThan(f: File, g: File) {
    forall a, b :: a in f.entries && b in g.entries && a.key.user == b.key.user ==> a.key.seqno > b.key.seqno
  }

  ghost function FileEntries(fs: seq<File>): set<Entry> {
    set f, e | f in fs && e in f.entries :: e
  }

  ghost function AllEntries(levels: seq<seq<File>>): set<Entry> {
    set level, f, e | level in levels && f in level && e in f.entries :: e
  }

  // ----- What a version must satisfy for a read to be right -----

  ghost predicate LevelZeroOk(v: seq<File>) {
    && (forall f :: f in v ==> FileOk(f))
    && forall i, j :: 0 <= i < |v| && 0 <= j < |v| && i != j ==>
         v[i].number != v[j].number && (v[i].number > v[j].number ==> NewerThan(v[i], v[j]))
  }

  /** Files in ascending order, no user key in two of them. */
  ghost predicate LevelOk(v: seq<File>) {
    && (forall f :: f in v ==> FileOk(f))
    && forall i, j :: 0 <= i < j < |v| ==> Before(v[i], v[j])
  }

  ghost predicate ShallowerIsNewer(levels: seq<seq<File>>) {
    forall i, j, f, g :: 0 <= i < j < |levels| && f in levels[i] && g in levels[j] ==> NewerThan(f, g)
  }

  ghost predicate VersionOk(levels: seq<seq<File>>) {
    && |levels| == NUM_LEVELS
    && LevelZeroOk(levels[0])
    && (forall i :: 0 < i < |levels| ==> LevelOk(levels[i]))
    && ShallowerIsNewer(levels)
  }

  // ----- Reading one table -----

  /** Seek to (k, s) in sorted entries and look at the entry found there, as the Get of a memtable
      and of a table do. */
  method SeekGet(es: seq<Entry>, k: UserKey, s: nat) returns (r: Option<Entry>)
    requires Sorted(es) && forall i :: 0 <= i < |es| ==> Parses(es[i].key)
    ensures Reads(Entries(es), k, s, r)
  {
    var target := IKey(k, s, Value);
    var i := 0;
    while i < |es| && Less(es[i].key, target)
      invariant 0 <= i <= |es|
      invariant forall j :: 0 <= j < i ==> Less(es[j].key, target)
    {
      i := i + 1;
    }
    forall j | 0 <= j < |es| && VisibleAt(es[j], k, s)
      ensures i <= j && es[i].key.user == k && (i == j || Less(es[i].key, es[j].key))
    {
      VisibleIsAtOrAfter(es, i, j, k, s);
    }
    if i < |es| && es[i].key.user == k {
      r := Some(es[i]);
      assert es[i].key.seqno <= s;
    } else {
      r := None;
    }
  }

  method TableGet(f: File, k: UserKey, s: nat) returns (r: Option<Entry>)
    requires FileOk(f)
    ensures Reads(Entries(f.entries), k, s, r)
  {
    r := SeekGet(f.entries, k, s);
  }

  lemma {:induction false} VisibleIsAtOrAfter(es: seq<Entry>, i: nat, j: nat, k: UserKey, s: nat)
    requires Sorted(es) && i <= |es| && j < |es| && VisibleAt(es[j], k, s)
    requires forall l :: 0 <= l < i ==> Less(es[l].key, IKey(k, s, Value))
    requires i < |es| ==> !Less(es[i].key, IKey(k, s, Value))
    ensures i <= j && es[i].key.user == k && (i == j || Less(es[i].key, es[j].key))
  {
    assert !Less(es[j].key, IKey(k, s, Value));
    if i < j {
      SortedFacts(es, i, j);
      assert Less(es[i].key, es[j].key);
    }
  }

  // ----- Finding the tables -----

  /** Binary search for the first file whose largest key is not below `key`. */
  method FindFile(files: seq<File>, key: IKey) returns (index: nat)
    requires forall i, j :: 0 <= i < j < |files| ==> Less(files[i].largest, files[j].largest)
    ensures index <= |files|
    ensures forall i :: 0 <= i < index ==> Less(files[i].largest, key)
    ensures forall i :: index <= i < |files| ==> !Less(files[i].largest, key)
  {
    var left, right := 0, |files|;
    while left < right
      invariant 0 <= left <= right <= |files|
      invariant forall i :: 0 <= i < left ==> Less(files[i].largest, key)
      invariant forall i :: right <= i < |files| ==> !Less(files[i].largest, key)
    {
      var mid := (left + right) / 2;
      if Less(files[mid].largest, key) {
        forall i | 0 <= i <= mid
          ensures Less(files[i].largest, key)
        {
          assert i < mid ==> Less(files[i].largest, files[mid].largest);
        }
        left := mid + 1;
      } else {
        forall i | mid <= i < |files|
          ensures !Less(files[i].largest, key)
        {
          assert mid < i ==> Less(files[mid].largest, files[i].largest);
        }
        right := mid;
      }
    }
    index := right;
  }

  /** The level-0 files that cover `k`, newest number first. */
  method CoveringNewestFirst(files: seq<File>, k: UserKey) returns (tmp: seq<File>)
    ensures forall f :: f in tmp <==> f in files && Covers(f, k)
    ensures NumbersDescend(tmp)
  {
    tmp := [];
    for n := 0 to |files|
      invariant forall f :: f in tmp <==> f in files[..n] && Covers(f, k)
      invariant NumbersDescend(tmp)
    {
      assert files[..n + 1] == files[..n] + [files[n]];
      if files[n].smallest.user <= k && k <= files[n].largest.user {
        tmp := InsertByNumber(tmp, files[n]);
      }
    }
    assert files[..|files|] == files;
  }

  method InsertByNumber(tmp: seq<File>, f: File) returns (r: seq<File>)
    requires NumbersDescend(tmp)
    ensures forall g :: g in r <==> g == f || g in tmp
    ensures NumbersDescend(r)
  {
    var p := 0;
    while p < |tmp| && tmp[p].number >= f.number
      invariant 0 <= p <= |tmp|
      invariant forall i :: 0 <= i < p ==> tmp[i].number >= f.number
    {
      p := p + 1;
    }
    r := tmp[..p] + [f] + tmp[p..];
    assert tmp == tmp[..p] + tmp[p..];
    InsertedDescends(tmp, f, p);
  }

  ghost predicate NumbersDescend(fs: seq<File>) {
    forall i, j :: 0 <= i < j < |fs| ==> fs[i].number >= fs[j].number
  }

  lemma {:induction false} InsertedDescends(fs: seq<File>, f: File, p: nat)
    requires NumbersDescend(fs) && p <= |fs| && (p < |fs| ==> fs[p].number <= f.number)
    requires forall i :: 0 <= i < p ==> fs[i].number >= f.number
    ensures NumbersDescend(fs[..p] + [f] + fs[p..])
  {
    forall i | p <= i < |fs|
      ensures fs[i].number <= f.number
    {
      assert p < i ==> fs[p].number >= fs[i].number;
    }
  }

  // ----- Reading a level, and all levels -----

  ghost predicate NothingIn(es: set<Entry>, k: UserKey, s: nat) {
    forall e :: e in es ==> !VisibleAt(e, k, s)
  }

  method GetLevelZero(files: seq<File>, k: UserKey, s: nat) returns (r: Option<Entry>)
    requires LevelZeroOk(files)
    ensures Reads(FileEntries(files), k, s, r)
  {
    var tmp := CoveringNewestFirst(files, k);
    for n := 0 to |tmp|
      invariant forall i :: 0 <= i < n ==> NothingIn(Entries(tmp[i].entries), k, s)
    {
      r := TableGet(tmp[n], k, s);
      if r.Some? {
        assert Reads(FileEntries(files), k, s, r) by {
          LevelZeroHit(files, tmp, n, k, s, r.value);
        }
        return;
      }
    }
    r := None;
    forall f, e | f in files && e in f.entries
      ensures !VisibleAt(e, k, s)
    {
      MissInFile(f, tmp, k, s, e);
    }
  }

  lemma {:induction false} MissInFile(f: File, tmp: seq<File>, k: UserKey, s: nat, e: Entry)
    requires FileOk(f) && e in f.entries
    requires Covers(f, k) ==> f in tmp
    requires forall i :: 0 <= i < |tmp| ==> NothingIn(Entries(tmp[i].entries), k, s)
    ensures !VisibleAt(e, k, s)
  {
    if Covers(f, k) {
      var i :| 0 <= i < |tmp| && tmp[i] == f;
      assert e in Entries(tmp[i].entries);
    }
  }

  lemma {:induction false} LevelZeroHit(files: seq<File>, tmp: seq<File>, n: nat, k: UserKey, s: nat, hit: Entry)
    requires LevelZeroOk(files) && n < |tmp|
    requires forall f :: f in tmp <==> f in files && Covers(f, k)
    requires forall i, j :: 0 <= i < j < |tmp| ==> tmp[i].number >= tmp[j].number
    requires forall i :: 0 <= i < n ==> NothingIn(Entries(tmp[i].entries), k, s)
    requires Reads(Entries(tmp[n].entries), k, s, Some(hit))
    ensures Reads(FileEntries(files), k, s, Some(hit))
  {
    assert tmp[n] in files && hit in tmp[n].entries;
    forall e | e in FileEntries(files) && VisibleAt(e, k, s)
      ensures e == hit || Less(hit.key, e.key)
    {
      var f :| f in files && e in f.entries;
      assert FileOk(f) && Covers(f, k);
      var i :| 0 <= i < |tmp| && tmp[i] == f;
      assert e in Entries(tmp[i].entries);
      if i > n && f != tmp[n] {
        var a :| 0 <= a < |files| && files[a] == tmp[n];
        var b :| 0 <= b < |files| && files[b] == f;
        assert NewerThan(files[a], files[b]);
        HitBeatsOlder(tmp[n], f, hit, e);
      }
    }
  }

  lemma {:induction false} HitBeatsOlder(f: File, g: File, hit: Entry, e: Entry)
    requires FileOk(f) && FileOk(g) && NewerThan(f, g) && hit in f.entries && e in g.entries
    requires hit.key.user == e.key.user
    ensures Less(hit.key, e.key)
  {
    NewerComesFirst(hit.key, e.key);
  }

  method GetLevel(files: seq<File>, k: UserKey, s: nat) returns (r: Option<Entry>)
    requires LevelOk(files)
    ensures Reads(FileEntries(files), k, s, r)
  {
    forall i, j | 0 <= i < j < |files|
      ensures Less(files[i].largest, files[j].largest)
    {
      assert FileOk(files[j]) && Before(files[i], files[j]);
    }
    var target := IKey(k, s, Value);
    var index := FindFile(files, target);
    if index < |files| && files[index].smallest.user <= k {
      r := TableGet(files[index], k, s);
    } else {
      r := None;
    }
    forall f, e | f in files && e in f.entries && VisibleAt(e, k, s)
      ensures index < |files| && f == files[index] && f.smallest.user <= k
    {
      OnlyFoundFile(files, index, f, k, s, e);
    }
    if r.Some? {
      assert files[index] in files && r.value in files[index].entries;
    }
    assert forall e :: e in FileEntries(files) && VisibleAt(e, k, s) ==> e in Entries(files[index].entries);
  }

  lemma {:induction false} OnlyFoundFile(files: seq<File>, index: nat, f: File, k: UserKey, s: nat, e: Entry)
    requires LevelOk(files) && index <= |files| && f in files && e in f.entries && VisibleAt(e, k, s)
    requires forall i :: 0 <= i < index ==> Less(files[i].largest, IKey(k, s, Value))
    requires forall i :: index <= i < |files| ==> !Less(files[i].largest, IKey(k, s, Value))
    ensures index < |files| && f == files[index] && f.smallest.user <= k
  {
    var p :| 0 <= p < |files| && files[p] == f;
    assert FileOk(files[p]);
    assert !Less(files[p].largest, e.key) && !Less(e.key, IKey(k, s, Value));
    assert index < p ==> Before(files[index], files[p]);
  }

  /** Version::Get: the first level that has a visible entry answers the read, and the answer is
      the one a scan of all entries of all files would give. */
  method Get(levels: seq<seq<File>>, k: UserKey, s: nat) returns (r: Option<Entry>)
    requires VersionOk(levels)
    ensures Reads(AllEntries(levels), k, s, r)
  {
    r := GetLevelZero(levels[0], k, s);
    if r.Some? {
      LevelHit(levels, 0, k, s, r.value);
      return;
    }
    for level := 1 to NUM_LEVELS
      invariant forall i :: 0 <= i < level ==> NothingIn(FileEntries(levels[i]), k, s)
    {
      r := GetLevel(levels[level], k, s);
      if r.Some? {
        LevelHit(levels, level, k, s, r.value);
        return;
      }
    }
    r := None;
    forall e | e in AllEntries(levels)
      ensures !VisibleAt(e, k, s)
    {
      var i := LevelOfEntry(levels, e);
    }
  }

  lemma {:induction false} LevelOfEntry(levels: seq<seq<File>>, e: Entry) returns (i: nat)
    requires e in AllEntries(levels)
    ensures i < |levels| && e in FileEntries(levels[i])
  {
    var level, f :| level in levels && f in level && e in f.entries;
    i :| 0 <= i < |levels| && levels[i] == level;
  }

  lemma {:induction false} LevelHit(levels: seq<seq<File>>, n: nat, k: UserKey, s: nat, hit: Entry)
    requires VersionOk(levels) && n < |levels|
    requires forall i :: 0 <= i < n ==> NothingIn(FileEntries(levels[i]), k, s)
    requires Reads(FileEntries(levels[n]), k, s, Some(hit))
    ensures Reads(AllEntries(levels), k, s, Some(hit))
  {
    var f :| f in levels[n] && hit in f.entries;
    assert levels[n] in levels;
    forall e | e in AllEntries(levels) && VisibleAt(e, k, s)
      ensures e == hit || Less(hit.key, e.key)
    {
      var i := LevelOfEntry(levels, e);
      if n < i {
        var g :| g in levels[i] && e in g.entries;
        assert NewerThan(f, g);
        assert FileOk(f) && FileOk(g);
        HitBeatsOlder(f, g, hit, e);
      }
    }
  }
}
