/**
 Internal keys: a user key tagged with a sequence number and a type byte.

 User keys are points of a dense linear order and are only ever compared.  Every countable
 total order, the bytewise order on strings among them, embeds in `real`, so nothing proved
 about keys depends on how they are spelled.
 */
module Keys {

  type UserKey = real
  type Blob = seq<char>

  /** The type byte of an internal key; `ParseInternalKey` rejects every code above 1. */
  datatype Kind = Deletion | Value | Unknown(code: nat)

  datatype IKey = IKey(user: UserKey, seqno: nat, kind: Kind)

  datatype Entry = Entry(key: IKey, value: Blob)

  function Code(k: Kind): nat {
    match k
    case Deletion => 0
    case Value => 1
    case Unknown(c) => c
  }

  /** The kinds a type byte can actually hold. */
  predicate ValidKind(k: Kind) {
    k.Unknown? ==> 2 <= k.code < 256
  }

  function KindOf(code: nat): Kind {
    if code == 0 then Deletion else if code == 1 then Value else Unknown(code)
  }

  /** The trailing eight bytes of an internal key, as a number. */
  function Pack(seqno: nat, kind: Kind): nat {
    seqno * 256 + Code(kind)
  }

  function Unpack(packed: nat): (nat, Kind) {
    (packed / 256, KindOf(packed % 256))
  }

  lemma {:induction false} PackRoundTrip(seqno: nat, kind: Kind)
    requires ValidKind(kind)
    ensures Unpack(Pack(seqno, kind)) == (seqno, kind)
  {
    assert Code(kind) < 256;
    assert Pack(seqno, kind) / 256 == seqno;
    assert Pack(seqno, kind) % 256 == Code(kind);
  }

  predicate Parses(k: IKey) {
    !k.kind.Unknown?
  }

  /** Three-way comparison: user keys ascending, then packed tags descending. */
  function Compare(a: IKey, b: IKey): int {
    if a.user < b.user then -1
    else if a.user > b.user then 1
    else
      var x := Pack(a.seqno, a.kind);
      var y := Pack(b.seqno, b.kind);
      if x > y then -1 else if x < y then 1 else 0
  }

  predicate Less(a: IKey, b: IKey) {
    Compare(a, b) < 0
  }

  lemma {:induction false} CompareIsTotalOrder(a: IKey, b: IKey, c: IKey)
    requires ValidKind(a.kind) && ValidKind(b.kind)
    ensures Compare(a, b) == 0 <==> a == b
    ensures Compare(a, b) == -Compare(b, a)
    ensures Less(a, b) && Less(b, c) ==> Less(a, c)
  {
    if Compare(a, b) == 0 {
      PackRoundTrip(a.seqno, a.kind);
      PackRoundTrip(b.seqno, b.kind);
    }
  }

  /** For one user key, a larger sequence number comes first whatever the type bytes are. */
  lemma {:induction false} NewerComesFirst(a: IKey, b: IKey)
    requires ValidKind(a.kind) && ValidKind(b.kind)
    requires a.user == b.user && a.seqno > b.seqno
    ensures Less(a, b)
  {
    assert a.seqno * 256 >= b.seqno * 256 + 256;
  }

  /** Entries in strictly increasing internal-key order, as every memtable and file yields them. */
  ghost predicate Sorted(s: seq<Entry>) {
    && (forall i :: 0 <= i < |s| ==> ValidKind(s[i].key.kind))
    && forall i, j :: 0 <= i < j < |s| ==> Less(s[i].key, s[j].key)
  }

  lemma {:induction false} SortedFacts(s: seq<Entry>, i: nat, j: nat)
    requires Sorted(s) && i < j < |s|
    ensures s[i].key.user <= s[j].key.user
    ensures s[i].key.user == s[j].key.user ==> s[i].key.seqno >= s[j].key.seqno
  {
    assert Less(s[i].key, s[j].key);
  }

  // ----- What a read at a sequence number sees -----

  datatype Option<T> = None | Some(value: T)

  predicate VisibleAt(e: Entry, k: UserKey, s: nat) {
    e.key.user == k && Parses(e.key) && e.key.seqno <= s
  }

  /** `r` is the answer to reading `k` at `s` from the entries `es`: the visible entry that comes
      before every other one, or nothing when no entry is visible. */
  ghost predicate Reads(es: set<Entry>, k: UserKey, s: nat, r: Option<Entry>) {
    match r
    case None => forall e :: e in es ==> !VisibleAt(e, k, s)
    case Some(n) =>
      && n in es && VisibleAt(n, k, s)
      && forall e :: e in es && VisibleAt(e, k, s) ==> e == n || Less(n.key, e.key)
  }

  ghost function Entries(es: seq<Entry>): set<Entry> {
    set e | e in es
  }

  /** Every read of a sorted stream has exactly one answer. */
  lemma {:induction false} ReadOfSorted(es: seq<Entry>, k: UserKey, s: nat) returns (r: Option<Entry>)
    requires Sorted(es)
    ensures Reads(Entries(es), k, s, r)
    ensures forall q :: Reads(Entries(es), k, s, q) ==> q == r
  {
    var i := 0;
    while i < |es| && !VisibleAt(es[i], k, s)
      invariant 0 <= i <= |es|
      invariant forall j :: 0 <= j < i ==> !VisibleAt(es[j], k, s)
    {
      i := i + 1;
    }
    if i == |es| {
      r := None;
    } else {
      r := Some(es[i]);
      assert forall j :: i < j < |es| ==> Less(es[i].key, es[j].key) && !Less(es[j].key, es[i].key);
    }
  }
}
