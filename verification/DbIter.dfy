/**
 DBIter: the two-direction cursor that turns a sorted stream of internal entries into the
 sorted view of the database at one sequence number.
 */
module DbIter {
  import opened Keys

  datatype Direction = Forward | Reverse

  // ----- The view, defined without any cursor -----

  /** An entry the reader may look at: its key parses and it is not newer than the snapshot. */
  predicate Eligible(es: seq<Entry>, s: nat, i: int)
    requires 0 <= i < |es|
  {
    Parses(es[i].key) && es[i].key.seqno <= s
  }

  /** The newest eligible entry of its user key, and not a tombstone. */
  ghost predicate Shown(es: seq<Entry>, s: nat, i: int)
    requires 0 <= i < |es|
  {
    && Eligible(es, s, i)
    && es[i].key.kind.Value?
    && forall j :: 0 <= j < i && es[j].key.user == es[i].key.user ==> !Eligible(es, s, j)
  }

  /** The indices of the view's entries below `n`, in order. */
  ghost function View(es: seq<Entry>, s: nat, n: nat): seq<int>
    requires n <= |es|
  {
    if n == 0 then []
    else View(es, s, n - 1) + if Shown(es, s, n - 1) then [n - 1] else []
  }

  lemma {:induction false} ViewFacts(es: seq<Entry>, s: nat, n: nat)
    requires n <= |es|
    ensures forall a :: 0 <= a < |View(es, s, n)| ==> 0 <= View(es, s, n)[a] < n && Shown(es, s, View(es, s, n)[a])
    ensures forall a, b :: 0 <= a < b < |View(es, s, n)| ==> View(es, s, n)[a] < View(es, s, n)[b]
    ensures forall i :: 0 <= i < n && Shown(es, s, i) ==> i in View(es, s, n)
  {
    if n > 0 {
      ViewFacts(es, s, n - 1);
    }
  }

  /** The view lists exactly what a read at `s` finds: for each user key the entry that no other
      visible entry of that key precedes, unless it is a tombstone. */
  lemma {:induction false} ViewIsNewestPerKey(es: seq<Entry>, s: nat, i: int)
    requires Sorted(es) && 0 <= i < |es|
    ensures i in View(es, s, |es|) <==>
              && Eligible(es, s, i) && es[i].key.kind.Value?
              && forall j :: 0 <= j < |es| && j != i && es[j].key.user == es[i].key.user && Eligible(es, s, j)
                             ==> Less(es[i].key, es[j].key)
  {
    ViewFacts(es, s, |es|);
    assert forall j :: 0 <= j < i ==> Less(es[j].key, es[i].key) && !Less(es[i].key, es[j].key);
  }

  /** The view's user keys are strictly ascending. */
  lemma {:induction false} ViewAscends(es: seq<Entry>, s: nat, a: int, b: int)
    requires Sorted(es) && 0 <= a < b < |View(es, s, |es|)|
    ensures 0 <= View(es, s, |es|)[a] < View(es, s, |es|)[b] < |es|
    ensures es[View(es, s, |es|)[a]].key.user < es[View(es, s, |es|)[b]].key.user
  {
    ViewFacts(es, s, |es|);
    SortedFacts(es, View(es, s, |es|)[a], View(es, s, |es|)[b]);
  }

  // Positions in the view, found by what lies around them in the stream.

  lemma {:induction false} ViewIndex(es: seq<Entry>, s: nat, i: int) returns (a: int)
    requires 0 <= i < |es| && Shown(es, s, i)
    ensures 0 <= a < |View(es, s, |es|)| && View(es, s, |es|)[a] == i
    ensures forall b :: 0 <= b < |View(es, s, |es|)| ==> (b < a <==> View(es, s, |es|)[b] < i)
  {
    ViewFacts(es, s, |es|);
    a :| 0 <= a < |View(es, s, |es|)| && View(es, s, |es|)[a] == i;
  }

  lemma {:induction false} NextInView(es: seq<Entry>, s: nat, a: int, i: int)
    requires -1 <= a < |View(es, s, |es|)|
    requires a == -1 || View(es, s, |es|)[a] < i
    requires 0 <= i <= |es|
    requires i < |es| ==> Shown(es, s, i)
    requires forall j :: (if a == -1 then -1 else View(es, s, |es|)[a]) < j < i && 0 <= j < |es| ==> !Shown(es, s, j)
    ensures i == |es| <==> a + 1 == |View(es, s, |es|)|
    ensures i < |es| ==> View(es, s, |es|)[a + 1] == i
  {
    ViewFacts(es, s, |es|);
    var view := View(es, s, |es|);
    assert a + 1 < |view| ==> Shown(es, s, view[a + 1]) && view[a + 1] >= i;
    if i < |es| {
      var b := ViewIndex(es, s, i);
    }
  }

  lemma {:induction false} PrevInView(es: seq<Entry>, s: nat, a: int, i: int)
    requires 0 <= a <= |View(es, s, |es|)|
    requires a == |View(es, s, |es|)| || i < View(es, s, |es|)[a]
    requires -1 <= i < |es|
    requires i >= 0 ==> Shown(es, s, i)
    requires forall j :: i < j < (if a == |View(es, s, |es|)| then |es| else View(es, s, |es|)[a]) && 0 <= j < |es|
                         ==> !Shown(es, s, j)
    ensures i == -1 <==> a == 0
    ensures i >= 0 ==> View(es, s, |es|)[a - 1] == i
  {
    ViewFacts(es, s, |es|);
    var view := View(es, s, |es|);
    assert a > 0 ==> Shown(es, s, view[a - 1]) && view[a - 1] <= i;
    if i >= 0 {
      var b := ViewIndex(es, s, i);
    }
  }

  // ----- The forward scan, as a function -----

  /** Where the loop of FindNextUserEntry stops, hiding user keys up to `skip`. */
  function ScanNext(es: seq<Entry>, s: nat, p: nat, skip: Option<UserKey>): (r: nat)
    requires p <= |es|
    ensures p <= r <= |es|
    decreases |es| - p
  {
    if p == |es| then p
    else if !Eligible(es, s, p) then ScanNext(es, s, p + 1, skip)
    else if es[p].key.kind.Deletion? then ScanNext(es, s, p + 1, Some(es[p].key.user))
    else if skip.Some? && es[p].key.user <= skip.value then ScanNext(es, s, p + 1, skip)
    else p
  }

  /** Index `r` is the first entry shown from `p` on, user keys up to `skip` apart. */
  ghost predicate FirstShown(es: seq<Entry>, s: nat, p: int, r: int, skip: Option<UserKey>)
    requires 0 <= p && r <= |es|
  {
    && p <= r
    && (r < |es| ==> Shown(es, s, r) && (skip.Some? ==> skip.value < es[r].key.user))
    && forall j :: p <= j < r && Shown(es, s, j) ==> skip.Some? && es[j].key.user <= skip.value
  }

  /** Entries before `p` hide later ones only for keys that are being skipped. */
  ghost predicate HidesOnly(es: seq<Entry>, s: nat, p: int, skip: Option<UserKey>)
    requires 0 <= p <= |es|
  {
    forall j :: 0 <= j < p && Eligible(es, s, j) ==>
      || (skip.Some? && es[j].key.user <= skip.value)
      || (p < |es| ==> es[j].key.user < es[p].key.user)
  }

  /** The key being skipped is not above anything still to come. */
  ghost predicate SkipsBelow(es: seq<Entry>, s: nat, p: int, skip: Option<UserKey>)
    requires 0 <= p <= |es|
  {
    skip.Some? ==> forall j :: p <= j < |es| && Eligible(es, s, j) ==> skip.value <= es[j].key.user
  }

  lemma {:induction false} HidesAdvance(es: seq<Entry>, s: nat, p: int, skip: Option<UserKey>, skip': Option<UserKey>)
    requires Sorted(es) && 0 <= p < |es| && HidesOnly(es, s, p, skip) && SkipsBelow(es, s, p, skip)
    requires skip' == skip || (skip' == Some(es[p].key.user) && Eligible(es, s, p))
    requires Eligible(es, s, p) ==> skip'.Some? && es[p].key.user <= skip'.value
    ensures HidesOnly(es, s, p + 1, skip') && SkipsBelow(es, s, p + 1, skip')
  {
    if p + 1 < |es| {
      SortedFacts(es, p, p + 1);
    }
    forall j | p < j < |es|
      ensures es[p].key.user <= es[j].key.user
    {
      SortedFacts(es, p, j);
    }
  }

  /** The scan stops at the first entry shown.  `skip0` is the caller's skip; the scan's own skip is
      that one or the key of the entry `d` already passed. */
  lemma {:induction false} ScanFindsFirst(es: seq<Entry>, s: nat, p: nat, skip: Option<UserKey>,
      skip0: Option<UserKey>, d: int)
    requires Sorted(es) && p <= |es|
    requires HidesOnly(es, s, p, skip) && SkipsBelow(es, s, p, skip)
    requires skip0.Some? ==> skip.Some? && skip0.value <= skip.value
    requires skip == skip0 || (0 <= d < p && Eligible(es, s, d) && skip == Some(es[d].key.user))
    ensures FirstShown(es, s, p, ScanNext(es, s, p, skip), skip0)
    decreases |es| - p
  {
    if p < |es| {
      if Eligible(es, s, p) && !es[p].key.kind.Deletion? && !(skip.Some? && es[p].key.user <= skip.value) {
        StopIsShown(es, s, p, skip);
      } else {
        var tombstone := Eligible(es, s, p) && es[p].key.kind.Deletion?;
        var skip' := if tombstone then Some(es[p].key.user) else skip;
        HidesAdvance(es, s, p, skip, skip');
        ScanFindsFirst(es, s, p + 1, skip', skip0, if tombstone then p else d);
      }
    }
  }

  lemma {:induction false} StopIsShown(es: seq<Entry>, s: nat, p: nat, skip: Option<UserKey>)
    requires p < |es| && HidesOnly(es, s, p, skip) && Eligible(es, s, p) && !es[p].key.kind.Deletion?
    requires skip.Some? ==> skip.value < es[p].key.user
    ensures Shown(es, s, p)
  {
  }

  // ----- A cursor over the view alone -----

  datatype Move = First | Last | SeekTo(target: UserKey) | Forth | Back

  ghost function ViewKeys(es: seq<Entry>, s: nat): (keys: seq<UserKey>)
    ensures |keys| == |View(es, s, |es|)|
  {
    ViewFacts(es, s, |es|);
    seq(|View(es, s, |es|)|, a requires 0 <= a < |View(es, s, |es|)| => es[View(es, s, |es|)[a]].key.user)
  }

  /** The least position at or after `from` whose key is not below `target`; -1 when there is none. */
  function FirstAtLeast(keys: seq<UserKey>, target: UserKey, from: nat): (a: int)
    requires from <= |keys|
    ensures a == -1 <==> forall b :: from <= b < |keys| ==> keys[b] < target
    ensures a != -1 ==> from <= a < |keys| && target <= keys[a] && forall b :: from <= b < a ==> keys[b] < target
    decreases |keys| - from
  {
    if from == |keys| then -1
    else if target <= keys[from] then from
    else FirstAtLeast(keys, target, from + 1)
  }

  /** Where a move takes a cursor over a sorted list of keys; -1 is off the list, and the relative
      moves leave it there. */
  function Moved(keys: seq<UserKey>, at: int, m: Move): int
    requires -1 <= at < |keys|
  {
    match m
    case First => if |keys| > 0 then 0 else -1
    case Last => |keys| - 1
    case SeekTo(t) => FirstAtLeast(keys, t, 0)
    case Forth => if at != -1 && at + 1 < |keys| then at + 1 else -1
    case Back => if at == -1 then -1 else at - 1
  }

  function MovedAll(keys: seq<UserKey>, at: int, ms: seq<Move>): (r: int)
    requires -1 <= at < |keys|
    ensures -1 <= r < |keys|
    decreases |ms|
  {
    if ms == [] then at else Moved(keys, MovedAll(keys, at, ms[..|ms| - 1]), ms[|ms| - 1])
  }

  // ----- The cursor -----

  /** Some entry from place `a` to before `b` has a key that cannot be parsed. */
  ghost predicate Damaged(es: seq<Entry>, a: int, b: int) {
    exists j :: 0 <= j < |es| && a <= j < b && !Parses(es[j].key)
  }

  lemma {:induction false} DamagedFrom(es: seq<Entry>, a: int, b: int)
    requires 0 <= a < b <= |es|
    ensures Damaged(es, a, b) <==> Damaged(es, a + 1, b) || !Parses(es[a].key)
  {
  }

  lemma {:induction false} DamageJoins(es: seq<Entry>, a: int, b: int, c: int)
    requires 0 <= a <= b < c <= |es| && Parses(es[b].key)
    ensures Damaged(es, a, c) <==> Damaged(es, a, b) || Damaged(es, b + 1, c)
  {
  }

  lemma {:induction false} DamagedUpTo(es: seq<Entry>, a: int, b: int)
    requires 0 <= a <= b < |es|
    ensures Damaged(es, a, b + 1) <==> Damaged(es, a, b) || !Parses(es[b].key)
  {
  }

  lemma {:induction false} LowerKeys(es: seq<Entry>, p: int)
    requires Sorted(es) && 0 <= p < |es|
    ensures forall j :: 0 <= j < p ==> es[j].key.user <= es[p].key.user
  {
    forall j | 0 <= j < p
      ensures es[j].key.user <= es[p].key.user
    {
      SortedFacts(es, j, p);
    }
  }

  class DBIter {
    const entries: seq<Entry>
    const sequence: nat

    var pos: int                        // inner iterator; -1 when it is not valid
    var direction: Direction
    var valid: bool
    var savedKey: Option<UserKey>
    var savedValue: Blob
    var corrupt: bool                   // status_ has been set to Corruption

    constructor (es: seq<Entry>, s: nat)
      requires Sorted(es)
      ensures entries == es && sequence == s && !valid && Wf()
    {
      entries := es;
      sequence := s;
      pos := -1;
      direction := Forward;
      valid := false;
      savedKey := None;
      savedValue := [];
      corrupt := false;
    }

    /** The entry of the stream the cursor stands on, by the rule of its direction. */
    ghost predicate StandsOn(i: int)
      reads this
    {
      && 0 <= i < |entries| && Shown(entries, sequence, i)
      && match direction
         case Forward => pos == i
         case Reverse =>
           && savedKey == Some(entries[i].key.user) && savedValue == entries[i].value
           && -1 <= pos < i
           && (forall j :: pos < j < i ==> !Eligible(entries, sequence, j))
           && (pos == -1 || (Eligible(entries, sequence, pos) && entries[pos].key.user < entries[i].key.user))
    }

    ghost function Visible(): (view: seq<int>)
      ensures forall a :: 0 <= a < |view| ==> 0 <= view[a] < |entries|
    {
      ViewFacts(entries, sequence, |entries|);
      View(entries, sequence, |entries|)
    }

    ghost predicate Wf()
      reads this
    {
      && Sorted(entries)
      && -1 <= pos < |entries|
      && (valid ==> exists i :: StandsOn(i))
    }

    /** The cursor is at position `a` of the view. */
    ghost predicate At(a: int)
      reads this
      requires Wf()
    {
      valid && 0 <= a < |Visible()| && StandsOn(Visible()[a])
    }

    /** A valid cursor has exactly one position. */
    lemma {:induction false} AtIsUnique()
      requires Wf() && valid
      ensures exists a :: At(a)
      ensures forall a, b :: At(a) && At(b) ==> a == b
    {
      var i :| StandsOn(i);
      var c := ViewIndex(entries, sequence, i);
      assert At(c);
      forall a, b | At(a) && At(b)
        ensures a == b
      {
        if a < b {
          ViewAscends(entries, sequence, a, b);
        } else if b < a {
          ViewAscends(entries, sequence, b, a);
        }
      }
    }

    ghost function Index(): (a: int)
      reads this
      requires Wf() && valid
      ensures At(a)
    {
      AtIsUnique();
      var a :| At(a); a
    }

    function Key(): (k: UserKey)
      reads this
      requires Wf() && valid
      ensures k == entries[Visible()[Index()]].key.user
    {
      if direction == Forward then entries[pos].key.user else savedKey.value
    }

    function ReadValue(): (v: Blob)
      reads this
      requires Wf() && valid
      ensures v == entries[Visible()[Index()]].value
    {
      if direction == Forward then entries[pos].value else savedValue
    }

    // ----- The inner iterator -----

    method InnerNext()
      requires 0 <= pos < |entries|
      modifies this`pos
      ensures pos == if old(pos) + 1 < |entries| then old(pos) + 1 else -1
    {
      pos := if pos + 1 < |entries| then pos + 1 else -1;
    }

    method InnerPrev()
      requires 0 <= pos < |entries|
      modifies this`pos
      ensures pos == old(pos) - 1
    {
      pos := pos - 1;
    }

    method InnerSeek(target: IKey)
      requires Sorted(entries) && ValidKind(target.kind)
      modifies this`pos
      ensures -1 <= pos < |entries|
      ensures pos == -1 ==> forall j :: 0 <= j < |entries| ==> Less(entries[j].key, target)
      ensures pos != -1 ==> !Less(entries[pos].key, target) && forall j :: 0 <= j < pos ==> Less(entries[j].key, target)
    {
      pos := 0;
      while pos < |entries| && Less(entries[pos].key, target)
        invariant 0 <= pos <= |entries|
        invariant forall j :: 0 <= j < pos ==> Less(entries[j].key, target)
      {
        pos := pos + 1;
      }
      if pos == |entries| {
        pos := -1;
      }
    }

    method ParseKey() returns (ok: bool)
      requires 0 <= pos < |entries|
      modifies this`corrupt
      ensures ok == Parses(entries[pos].key)
      ensures corrupt == (old(corrupt) || !ok)
    {
      ok := Parses(entries[pos].key);
      if !ok {
        corrupt := true;
      }
    }

    // ----- Scans -----

    /** What the forward scan from `p` finds, when user keys up to `skip` are to be passed over. */
    ghost predicate FirstFrom(p: int, skip: Option<UserKey>)
      reads this
      requires 0 <= p
    {
      && (valid ==> 0 <= pos < |entries|)
      && FirstShown(entries, sequence, p, if valid then pos else |entries|, skip)
    }

    /** One round of the forward scan. */
    method StepForth(skipping0: bool) returns (found: bool, skipping: bool)
      requires Sorted(entries) && 0 <= pos < |entries| && (skipping0 ==> savedKey.Some?)
      modifies this`pos, this`savedKey, this`corrupt
      ensures -1 <= pos < |entries| && (skipping ==> savedKey.Some?)
      ensures var skip0, skip := if skipping0 then old(savedKey) else None, if skipping then savedKey else None;
              if found then ScanNext(entries, sequence, old(pos), skip0) == pos == old(pos)
              else ScanNext(entries, sequence, old(pos), skip0) ==
                     if pos == -1 then |entries| else ScanNext(entries, sequence, pos, skip)
      ensures !found ==> pos == if old(pos) + 1 < |entries| then old(pos) + 1 else -1
      ensures corrupt == (old(corrupt) || !Parses(entries[old(pos)].key)) && (found ==> Parses(entries[pos].key))
    {
      found, skipping := false, skipping0;
      var ok := ParseKey();
      if ok && entries[pos].key.seqno <= sequence {
        if entries[pos].key.kind.Deletion? {
          savedKey := Some(entries[pos].key.user);
          skipping := true;
        } else if skipping && entries[pos].key.user <= savedKey.value {
        } else {
          found := true;
          return;
        }
      }
      InnerNext();
    }

    method FindNextUserEntry(skipping0: bool)
      requires Sorted(entries) && 0 <= pos < |entries| && direction == Forward
      requires skipping0 ==> savedKey.Some?
      requires HidesOnly(entries, sequence, pos, if skipping0 then savedKey else None)
      requires SkipsBelow(entries, sequence, pos, if skipping0 then savedKey else None)
      modifies this`pos, this`valid, this`savedKey, this`corrupt
      ensures Wf() && direction == Forward
      ensures FirstFrom(old(pos), if skipping0 then old(savedKey) else None)
      ensures corrupt <==> old(corrupt) || Damaged(entries, old(pos), if valid then pos else |entries|)
    {
      ghost var skip0 := if skipping0 then savedKey else None;
      ghost var stop := ScanNext(entries, sequence, pos, skip0);
      assert FirstShown(entries, sequence, pos, stop, skip0) by {
        ScanFindsFirst(entries, sequence, pos, skip0, skip0, -1);
      }
      var skipping, found := skipping0, false;
      while pos != -1 && !found
        invariant -1 <= pos < |entries| && (pos == -1 || old(pos) <= pos) && (skipping ==> savedKey.Some?)
        invariant found ==> pos == stop
        invariant !found ==> stop == if pos == -1 then |entries|
                                     else ScanNext(entries, sequence, pos, if skipping then savedKey else None)
        invariant corrupt <==> old(corrupt) || Damaged(entries, old(pos), if pos == -1 then |entries| else pos)
        decreases if pos == -1 then -1 else |entries| - pos, !found
      {
        DamagedUpTo(entries, old(pos), pos);
        found, skipping := StepForth(skipping);
      }
      valid := found;
      savedKey := None;
      assert found ==> StandsOn(pos);
    }

    /** What the backward scan over the first `n` entries finds. */
    ghost predicate LastBelow(n: int)
      reads this
      requires 0 <= n <= |entries|
    {
      && (valid ==> direction == Reverse
                    && exists i :: (0 <= i < n && StandsOn(i)
                                    && forall j :: i < j < n ==> !Shown(entries, sequence, j)))
      && (!valid ==> forall j :: 0 <= j < n ==> !Shown(entries, sequence, j))
    }

    /** What the backward scan has seen of the entries from `pos` + 1 to before `n`: `last` is the lowest one the
        reader may see, `n` when there is none. */
    ghost predicate Scanning(n: int, last: int, valueType: Kind)
      reads this
    {
      && -1 <= pos < last <= n <= |entries| && direction == Reverse
      && (forall j :: pos < j < last ==> !Eligible(entries, sequence, j))
      && (forall j :: last < j < n ==> !Shown(entries, sequence, j))
      && valueType == (if last == n then Deletion else entries[last].key.kind)
      && (last < n ==> Eligible(entries, sequence, last))
      && (valueType.Value? ==> savedKey == Some(entries[last].key.user) && savedValue == entries[last].value)
    }

    /** One round of the backward scan; it stops at an entry of a lower user key once there is one to show. */
    method StepBack(valueType: Kind, ghost n: int, ghost last: int) returns (stop: bool, vt: Kind, ghost l: int)
      requires Sorted(entries) && Scanning(n, last, valueType) && pos != -1
      modifies this`pos, this`savedKey, this`savedValue, this`corrupt
      ensures Scanning(n, l, vt)
      ensures stop ==> pos == old(pos) && l < n && StandsOn(l) && !vt.Deletion? && Parses(entries[pos].key)
      ensures !stop ==> pos == old(pos) - 1
      ensures corrupt == (old(corrupt) || !Parses(entries[old(pos)].key))
    {
      stop, vt, l := false, valueType, last;
      var ok := ParseKey();
      if ok && entries[pos].key.seqno <= sequence {
        if !vt.Deletion? && entries[pos].key.user < savedKey.value {
          LowerKeys(entries, pos);
          assert Shown(entries, sequence, l);
          stop := true;
          return;
        }
        if l < n {
          SortedFacts(entries, pos, l);
          assert !Shown(entries, sequence, l);
        }
        vt := entries[pos].key.kind;
        if vt.Deletion? {
          savedKey := None;
          savedValue := [];
        } else {
          savedKey := Some(entries[pos].key.user);
          savedValue := entries[pos].value;
        }
        l := pos;
      }
      InnerPrev();
    }

    method FindPrevUserEntry()
      requires Sorted(entries) && -1 <= pos < |entries| && direction == Reverse
      modifies this
      ensures Wf() && LastBelow(old(pos) + 1)
      ensures corrupt <==> old(corrupt) || Damaged(entries, pos + 1, old(pos) + 1)
    {
      ghost var n := pos + 1;
      ghost var last := n;
      var valueType, stop := Deletion, false;
      while pos != -1 && !stop
        invariant Scanning(n, last, valueType)
        invariant stop ==> last < n && StandsOn(last) && !valueType.Deletion? && pos != -1
        invariant corrupt <==> old(corrupt) || Damaged(entries, pos + 1, n)
        decreases pos, !stop
      {
        DamagedFrom(entries, pos, n);
        stop, valueType, last := StepBack(valueType, n, last);
      }
      if valueType.Deletion? {
        valid := false;
        savedKey := None;
        savedValue := [];
        direction := Forward;
      } else {
        valid := true;
        assert StandsOn(last);
      }
    }

    // ----- The public moves -----

    method Seek(target: UserKey)
      requires Wf()
      modifies this
      ensures Wf()
      ensures valid <==> exists a :: 0 <= a < |Visible()| && target <= entries[Visible()[a]].key.user
      ensures valid ==> target <= Key()
                        && forall b :: 0 <= b < Index() ==> entries[Visible()[b]].key.user < target
    {
      ViewFacts(entries, sequence, |entries|);
      direction := Forward;
      savedValue := [];
      savedKey := None;
      var t := IKey(target, sequence, Value);
      InnerSeek(t);
      ghost var start := if pos == -1 then |entries| else pos;
      SeekSplits(start, target);
      if pos != -1 {
        FindNextUserEntry(false);
        if valid {
          var a := ViewIndex(entries, sequence, pos);
          assert At(a);
          AtIsUnique();
        }
      } else {
        valid := false;
      }
    }

    /** The seek key (target, snapshot) separates the visible entries by user key. */
    lemma {:induction false} SeekSplits(start: int, target: UserKey)
      requires Sorted(entries) && 0 <= start <= |entries|
      requires forall j :: 0 <= j < start ==> Less(entries[j].key, IKey(target, sequence, Value))
      requires start < |entries| ==> !Less(entries[start].key, IKey(target, sequence, Value))
      ensures forall j :: 0 <= j < |entries| && Eligible(entries, sequence, j) ==>
                (j < start <==> entries[j].key.user < target)
      ensures HidesOnly(entries, sequence, start, None)
    {
      var t := IKey(target, sequence, Value);
      forall j | 0 <= j < |entries| && Eligible(entries, sequence, j)
        ensures j < start <==> entries[j].key.user < target
      {
        if j < start {
          assert Less(entries[j].key, t);
        } else {
          if start < j { SortedFacts(entries, start, j); }
          assert Compare(entries[start].key, t) >= 0;
        }
      }
      if start < |entries| {
        assert Compare(entries[start].key, t) >= 0;
      }
    }

    method SeekToFirst()
      requires Wf()
      modifies this
      ensures Wf()
      ensures valid <==> Visible() != []
      ensures valid ==> Index() == 0
      ensures direction == Forward
      ensures corrupt <==> old(corrupt) || Damaged(entries, 0, if valid then pos else |entries|)
    {
      direction := Forward;
      savedValue := [];
      pos := if |entries| > 0 then 0 else -1;
      if pos != -1 {
        FindNextUserEntry(false);
        FirstIsAt();
      } else {
        valid := false;
      }
    }

    /** A forward scan from the beginning ends at the first view position. */
    lemma {:induction false} FirstIsAt()
      requires Wf() && direction == Forward && FirstFrom(0, None)
      ensures valid <==> Visible() != []
      ensures valid ==> Index() == 0
    {
      NextInView(entries, sequence, -1, if valid then pos else |entries|);
      if valid {
        assert At(0);
        AtIsUnique();
      }
    }

    /** From the first entry to the last: all of the view in order, and a corruption report if and only if some key
        of the stream cannot be parsed. */
    method Walk() returns (keys: seq<UserKey>)
      requires Wf()
      modifies this
      ensures Wf() && !valid && keys == ViewKeys(entries, sequence)
      ensures corrupt <==> old(corrupt) || Damaged(entries, 0, |entries|)
    {
      SeekToFirst();
      ghost var view := ViewKeys(entries, sequence);
      keys := [];
      while valid
        invariant Wf() && direction == Forward
        invariant valid ==> |keys| == Index()
        invariant !valid ==> |keys| == |view|
        invariant |keys| <= |view| && keys == view[..|keys|]
        invariant corrupt <==> old(corrupt) || Damaged(entries, 0, if valid then pos else |entries|)
        decreases |view| - |keys|
      {
        ghost var p := pos;
        keys := keys + [Key()];
        Next();
        DamageJoins(entries, 0, p, if valid then pos else |entries|);
      }
    }

    method SeekToLast()
      requires Wf()
      modifies this
      ensures Wf()
      ensures valid <==> Visible() != []
      ensures valid ==> Index() == |Visible()| - 1
      ensures corrupt <==> old(corrupt) || Damaged(entries, pos + 1, |entries|)
    {
      direction := Reverse;
      savedValue := [];
      pos := |entries| - 1;
      FindPrevUserEntry();
      BackAt(|Visible()|, |entries|);
    }

    /** A backward scan ends one view position before the place it started from. */
    lemma {:induction false} BackAt(a: int, n: int)
      requires Wf() && 0 <= n <= |entries| && LastBelow(n)
      requires 0 <= a <= |Visible()|
      requires a < |Visible()| ==> n <= Visible()[a] < |entries|
      requires forall j :: n <= j < (if a == |Visible()| then |entries| else Visible()[a]) && j < |entries|
                           ==> !Shown(entries, sequence, j)
      ensures valid <==> 0 < a
      ensures valid ==> Index() == a - 1
    {
      var i := -1;
      if valid {
        i :| 0 <= i < n && StandsOn(i) && forall j :: i < j < n ==> !Shown(entries, sequence, j);
      }
      PrevInView(entries, sequence, a, i);
      if valid {
        assert At(a - 1);
        AtIsUnique();
      }
    }

    /** The inner iterator leaves the entry `i` the cursor stands on, whose key is to be skipped. */
    method StepOff(ghost i: int)
      requires Wf() && valid && StandsOn(i)
      modifies this`pos, this`direction, this`savedKey
      ensures direction == Forward && savedKey == Some(entries[i].key.user) && -1 <= pos <= i + 1 && pos < |entries|
      ensures pos == -1 ==> i == |entries| - 1
      ensures old(direction) == Forward ==> pos == if old(pos) + 1 < |entries| then old(pos) + 1 else -1
      ensures pos != -1 ==> forall j :: pos <= j < i ==> !Eligible(entries, sequence, j)
    {
      if direction == Reverse {
        direction := Forward;
        if pos == -1 {
          pos := if |entries| > 0 then 0 else -1;
        } else {
          InnerNext();
        }
      } else {
        savedKey := Some(entries[pos].key.user);
        InnerNext();
      }
    }

    method Next()
      requires Wf() && valid
      modifies this
      ensures Wf()
      ensures valid <==> old(Index()) + 1 < |Visible()|
      ensures valid ==> Index() == old(Index()) + 1
      ensures direction == Forward
      ensures old(direction) == Forward && valid ==> old(pos) < pos
      ensures old(direction) == Forward ==>
                (corrupt <==> old(corrupt) || Damaged(entries, old(pos) + 1, if valid then pos else |entries|))
    {
      ghost var a := Index();
      ghost var i := Visible()[a];
      StepOff(i);
      if pos == -1 {
        valid := false;
        savedKey := None;
        NextInView(entries, sequence, a, |entries|);
        return;
      }
      SkipSplits(pos, i);
      FindNextUserEntry(true);
      NextIsAt(a, i);
    }

    /** A forward scan that skips the key shown at `i` ends at the next view position. */
    lemma {:induction false} NextIsAt(a: int, i: int)
      requires Wf() && direction == Forward && 0 <= a < |Visible()| && i == Visible()[a]
      requires exists p :: 0 <= p <= i + 1 && FirstFrom(p, Some(entries[i].key.user))
      ensures valid <==> a + 1 < |Visible()|
      ensures valid ==> Index() == a + 1
    {
      ViewFacts(entries, sequence, |entries|);
      SkipSplits(i, i);
      NextInView(entries, sequence, a, if valid then pos else |entries|);
      if valid {
        assert At(a + 1);
        AtIsUnique();
      }
    }

    /** Skipping the key shown at `i` from any place between it and the last entry before it that
        the reader may see hides nothing else. */
    lemma {:induction false} SkipSplits(p: int, i: int)
      requires Sorted(entries) && 0 <= i < |entries| && 0 <= p <= i + 1 && p < |entries|
      requires Shown(entries, sequence, i)
      requires forall j :: p <= j < i ==> !Eligible(entries, sequence, j)
      ensures HidesOnly(entries, sequence, p, Some(entries[i].key.user))
      ensures SkipsBelow(entries, sequence, p, Some(entries[i].key.user))
      ensures forall j :: i < j < |entries| && Shown(entries, sequence, j) ==> entries[i].key.user < entries[j].key.user
    {
      forall j | 0 <= j < |entries|
        ensures j < i ==> entries[j].key.user <= entries[i].key.user
        ensures i < j ==> entries[i].key.user <= entries[j].key.user
      {
        if j < i { SortedFacts(entries, j, i); } else if i < j { SortedFacts(entries, i, j); }
      }
    }

    method Prev()
      requires Wf() && valid
      modifies this
      ensures Wf()
      ensures valid <==> 0 < old(Index())
      ensures valid ==> Index() == old(Index()) - 1
    {
      ghost var a := Index();
      ghost var i := Visible()[a];
      if direction == Forward {
        savedKey := Some(entries[pos].key.user);
        while true
          invariant valid && direction == Forward && 0 <= pos <= i < |entries|
          invariant savedKey == Some(entries[i].key.user)
          invariant forall j :: pos <= j <= i ==> entries[j].key.user == entries[i].key.user
          decreases pos
        {
          InnerPrev();
          if pos == -1 {
            valid := false;
            savedKey := None;
            savedValue := [];
            PrevInView(entries, sequence, a, -1);
            return;
          }
          SortedFacts(entries, pos, i);
          if entries[pos].key.user < savedKey.value {
            break;
          }
        }
        direction := Reverse;
      }
      ghost var n := pos + 1;
      assert forall j :: n <= j < i ==> !Shown(entries, sequence, j);
      FindPrevUserEntry();
      BackAt(a, n);
    }

    /** Position in the view, -1 when the cursor is not valid. */
    ghost function Cursor(): (c: int)
      reads this
      requires Wf()
      ensures -1 <= c < |ViewKeys(entries, sequence)|
    {
      if valid then Index() else -1
    }

    /** One move; a relative move is only made when the cursor is valid, as the source asserts. */
    method Make(m: Move)
      requires Wf()
      modifies this
      ensures Wf()
      ensures Cursor() == Moved(ViewKeys(entries, sequence), old(Cursor()), m)
    {
      match m
      case First => SeekToFirst();
      case Last => SeekToLast();
      case SeekTo(t) =>
        Seek(t);
        ghost var keys := ViewKeys(entries, sequence);
        assert forall a :: 0 <= a < |keys| ==> keys[a] == entries[Visible()[a]].key.user;
      case Forth => if valid { Next(); }
      case Back => if valid { Prev(); }
    }

    /** Any mix of moves, including changes of direction, is the same mix of moves over the view. */
    method Drive(ms: seq<Move>)
      requires Wf()
      modifies this
      ensures Wf()
      ensures Cursor() == MovedAll(ViewKeys(entries, sequence), old(Cursor()), ms)
    {
      for n := 0 to |ms|
        invariant Wf()
        invariant Cursor() == MovedAll(ViewKeys(entries, sequence), old(Cursor()), ms[..n])
      {
        assert ms[..n + 1][..n] == ms[..n];
        Make(ms[n]);
      }
      assert ms[..|ms|] == ms;
    }
  }
}
