/**
 Version edits as they pass between compute and memory node: a list of tagged fields.
 */
module EditCodec {
  import opened Keys
  import opened Block
  import opened Codec

  const COMPARATOR: nat := 1
  const LOG_NUMBER: nat := 2
  const NEXT_FILE_NUMBER: nat := 3
  const LAST_SEQUENCE: nat := 4
  const COMPACT_POINTER: nat := 5
  const DELETED_FILE: nat := 6
  const NEW_FILE: nat := 7
  const PREV_LOG_NUMBER: nat := 9

  const LEVELS: nat := 6

  /** One field of an edit as it is written. */
  datatype Field =
    | Comparator(name: Bytes)
    | Number(tag: nat, number: nat)
    | Pointer(level: nat, key: Bytes)
    | Deleted(level: nat, file: nat, node: nat)
    | New(level: nat, meta: Meta)

  /** Level, file number and node. */
  type Triple = (nat, nat, nat)

  /** `numbers` holds the scalar fields that are set, by tag; `deleted` is an ordered set. */
  datatype Edit = Edit(
    comparator: Option<Bytes>,
    numbers: map<nat, nat>,
    pointers: seq<(nat, Bytes)>,
    deleted: seq<Triple>,
    files: seq<(nat, Meta)>)

  function EmptyEdit(pointers: seq<(nat, Bytes)>): Edit {
    Edit(None, map[], pointers, [], [])
  }

  predicate TripleLess(a: Triple, b: Triple) {
    a.0 < b.0 || (a.0 == b.0 && (a.1 < b.1 || (a.1 == b.1 && a.2 < b.2)))
  }

  ghost predicate InOrder(ts: seq<Triple>) {
    forall i, j :: 0 <= i < j < |ts| ==> TripleLess(ts[i], ts[j])
  }

  /** Insertion into the ordered set. */
  function InsertTriple(ts: seq<Triple>, t: Triple): (r: seq<Triple>)
    ensures forall x :: x in r <==> x in ts || x == t
  {
    if ts == [] then [t]
    else
      var rest, last := ts[..|ts| - 1], ts[|ts| - 1];
      assert ts == rest + [last];
      if TripleLess(last, t) then ts + [t]
      else if last == t then ts
      else InsertTriple(rest, t) + [last]
  }

  lemma {:induction false} InsertKeepsOrder(ts: seq<Triple>, t: Triple)
    requires InOrder(ts)
    ensures InOrder(InsertTriple(ts, t))
  {
    if ts != [] {
      var rest, last := ts[..|ts| - 1], ts[|ts| - 1];
      InsertKeepsOrder(rest, t);
      var r := InsertTriple(rest, t);
      assert TripleLess(last, t) || last == t || forall x :: x in r ==> TripleLess(x, last);
    }
  }

  /** What a field does to the edit. */
  function Take(e: Edit, f: Field): Edit {
    match f
    case Comparator(name) => e.(comparator := Some(name))
    case Number(tag, number) => e.(numbers := e.numbers[tag := number])
    case Pointer(level, key) => e.(pointers := e.pointers + [(level, key)])
    case Deleted(level, file, node) => e.(deleted := InsertTriple(e.deleted, (level, file, node)))
    case New(level, m) => e.(files := e.files + [(level, m)])
  }

  function TakeAll(e: Edit, fs: seq<Field>): Edit
    decreases |fs|
  {
    if fs == [] then e else TakeAll(Take(e, fs[0]), fs[1..])
  }

  predicate IsNumberTag(tag: nat) {
    tag == LOG_NUMBER || tag == NEXT_FILE_NUMBER || tag == LAST_SEQUENCE || tag == PREV_LOG_NUMBER
  }

  ghost predicate FieldOk(f: Field) {
    match f
    case Comparator(name) => |name| < TWO32
    case Number(tag, number) => IsNumberTag(tag) && number < Capacity(10)
    case Pointer(level, key) => level < LEVELS && 0 < |key| < TWO32
    case Deleted(level, file, node) => level < LEVELS && file < Capacity(10) && node < 256
    case New(level, m) => level < LEVELS && MetaOk(m)
  }

  function GetLevel(b: Bytes): Parsed<nat> {
    var (level, b) :- GetVar(b, 5);
    if level < LEVELS then Got(level, b) else Fail
  }

  function GetInternalKey(b: Bytes): Parsed<Bytes> {
    var (key, b) :- GetSlice(b);
    if key != [] then Got(key, b) else Fail
  }

  /** The rest of a field, behind its tag. */
  function GetField(tag: nat, b: Bytes): Parsed<Field> {
    if tag == COMPARATOR then
      var (name, b) :- GetSlice(b);
      Got(Comparator(name), b)
    else if IsNumberTag(tag) then
      var (number, b) :- GetVar(b, 10);
      Got(Number(tag, number), b)
    else if tag == COMPACT_POINTER then
      var (level, b) :- GetLevel(b);
      var (key, b) :- GetInternalKey(b);
      Got(Pointer(level, key), b)
    else if tag == DELETED_FILE then
      var (level, b) :- GetLevel(b);
      var (file, b) :- GetVar(b, 10);
      var (node, b) :- GetFixed(b, 1);
      Got(Deleted(level, file, node), b)
    else if tag == NEW_FILE then
      var (level, b) :- GetLevel(b);
      var (m, b) :- GetMeta(b);
      Got(New(level, m), b)
    else Fail
  }

  /** The field as it arrives. */
  function FieldArrived(f: Field): Field
    requires f.New? ==> f.meta.data != []
  {
    if f.New? then New(f.level, Arrived(f.meta)) else f
  }

  function TagOf(f: Field): nat {
    match f
    case Comparator(_) => COMPARATOR
    case Number(tag, _) => tag
    case Pointer(_, _) => COMPACT_POINTER
    case Deleted(_, _, _) => DELETED_FILE
    case New(_, _) => NEW_FILE
  }

  /** A field behind its tag. */
  function PutBody(f: Field, rest: Bytes): Bytes
    requires f.New? ==> f.meta.data != []
  {
    match f
    case Comparator(name) => PutSlice(name, rest)
    case Number(tag, number) => Varint(number) + rest
    case Pointer(level, key) => Varint(level) + PutSlice(key, rest)
    case Deleted(level, file, node) => Varint(level) + (Varint(file) + (Fixed(node, 1) + rest))
    case New(level, m) => Varint(level) + PutMeta(m, rest)
  }

  lemma {:induction false} LevelBack(level: nat, rest: Bytes)
    requires level < LEVELS
    ensures GetLevel(Varint(level) + rest) == Got(level, rest)
  {
    Capacity5();
    VarBack(level, 5, rest);
  }

  lemma {:induction false} PointerBack(level: nat, key: Bytes, rest: Bytes)
    requires FieldOk(Pointer(level, key))
    ensures GetField(COMPACT_POINTER, PutBody(Pointer(level, key), rest)) == Got(Pointer(level, key), rest)
  {
    LevelBack(level, PutSlice(key, rest));
    SliceBack(key, rest);
  }

  lemma {:induction false} DeletedBack(level: nat, file: nat, node: nat, rest: Bytes)
    requires FieldOk(Deleted(level, file, node))
    ensures GetField(DELETED_FILE, PutBody(Deleted(level, file, node), rest)) == Got(Deleted(level, file, node), rest)
  {
    assert Range(1) == 256;
    LevelBack(level, Varint(file) + (Fixed(node, 1) + rest));
    VarBack(file, 10, Fixed(node, 1) + rest);
    FixedBack(node, 1, rest);
  }

  lemma {:induction false} NewBack(level: nat, m: Meta, rest: Bytes)
    requires level < LEVELS && MetaOk(m)
    ensures GetField(NEW_FILE, PutBody(New(level, m), rest)) == Got(New(level, Arrived(m)), rest)
  {
    LevelBack(level, PutMeta(m, rest));
    MetaBack(m, rest);
  }

  lemma {:induction false} BodyBack(f: Field, rest: Bytes)
    requires FieldOk(f)
    ensures GetField(TagOf(f), PutBody(f, rest)) == Got(FieldArrived(f), rest)
  {
    match f
    case Comparator(name) => SliceBack(name, rest);
    case Number(tag, number) => VarBack(number, 10, rest);
    case Pointer(level, key) => PointerBack(level, key, rest);
    case Deleted(level, file, node) => DeletedBack(level, file, node, rest);
    case New(level, m) => NewBack(level, m, rest);
  }

  ghost predicate FieldsOk(fs: seq<Field>) {
    forall f :: f in fs ==> FieldOk(f) && (f.New? ==> f.meta.data != [])
  }

  ghost function PutFields(fs: seq<Field>, rest: Bytes): Bytes
    requires FieldsOk(fs)
    decreases |fs|
  {
    if fs == [] then rest else Varint(TagOf(fs[0])) + PutBody(fs[0], PutFields(fs[1..], rest))
  }

  ghost function AllFieldsArrived(fs: seq<Field>): (r: seq<Field>)
    requires FieldsOk(fs)
    ensures |r| == |fs|
    decreases |fs|
  {
    if fs == [] then [] else [FieldArrived(fs[0])] + AllFieldsArrived(fs[1..])
  }

  /** `Overrun`: the input ends inside a part that is read without looking at its length.
      `TooMany`: the process gives up after a hundred thousand fields. */
  datatype Message = NoMessage | BadField(tag: nat) | UnknownTag | InvalidTag | Overrun | TooMany

  const MAX_FIELDS: nat := 100000

  predicate KnownTag(tag: nat) {
    IsNumberTag(tag) || tag == COMPARATOR || tag == COMPACT_POINTER || tag == DELETED_FILE || tag == NEW_FILE
  }

  /** What is said about a field that could not be read. */
  function Complaint(tag: nat, b: Bytes): (m: Message)
    ensures m != NoMessage
  {
    if !KnownTag(tag) then UnknownTag
    else if GetLevel(b).Got? && (tag == NEW_FILE || (tag == DELETED_FILE && GetVar(GetLevel(b).rest, 10).Got?))
    then Overrun
    else BadField(tag)
  }

  /** DecodeFrom, `n` fields into the input: fields until the input is used up or something is wrong
      with it. */
  function DecodeFields(e: Edit, b: Bytes, n: nat): (Edit, Message)
    decreases |b|
  {
    match GetVar(b, 5)
    case Fail => (e, if b == [] then NoMessage else InvalidTag)
    case Got(tag, rest) =>
      match GetField(tag, rest)
      case Fail => (e, if n < MAX_FIELDS || Complaint(tag, rest) == Overrun then Complaint(tag, rest) else TooMany)
      case Got(f, next) =>
        GetVarShrinks(b, 5);
        GetFieldShrinks(tag, rest);
        if n < MAX_FIELDS then DecodeFields(Take(e, f), next, n + 1) else (Take(e, f), TooMany)
  }

  lemma {:induction false} GetVarShrinks(b: Bytes, max: nat)
    ensures GetVar(b, max).Got? ==> |GetVar(b, max).rest| < |b|
    decreases |b|
  {
    if max > 0 && b != [] && b[0] >= 128 {
      GetVarShrinks(b[1..], max - 1);
    }
  }

  lemma {:induction false} GetFixedShrinks(b: Bytes, width: nat)
    ensures GetFixed(b, width).Got? ==> |GetFixed(b, width).rest| <= |b|
    decreases |b|
  {
    if width > 0 && b != [] {
      GetFixedShrinks(b[1..], width - 1);
    }
  }

  lemma {:induction false} NumbersShrink()
    ensures forall b, w: nat {:trigger GetFixed(b, w)} :: GetFixed(b, w).Got? ==> |GetFixed(b, w).rest| <= |b|
    ensures forall b, n: nat {:trigger GetVar(b, n)} :: GetVar(b, n).Got? ==> |GetVar(b, n).rest| < |b|
  {
    forall b, w: nat
      ensures GetFixed(b, w).Got? ==> |GetFixed(b, w).rest| <= |b|
    {
      GetFixedShrinks(b, w);
    }
    forall b, n: nat
      ensures GetVar(b, n).Got? ==> |GetVar(b, n).rest| < |b|
    {
      GetVarShrinks(b, n);
    }
  }

  lemma {:induction false} GetRegionShrinks(b: Bytes, common: CommonPart)
    ensures GetRegion(b, common).Got? ==> |GetRegion(b, common).rest| <= |b|
  {
    NumbersShrink();
  }

  lemma {:induction false} GetChunksShrinks(b: Bytes, n: nat, common: CommonPart, so: Chunks)
    ensures GetChunks(b, n, common, so).Got? ==> |GetChunks(b, n, common, so).rest| <= |b|
    decreases n
  {
    if n > 0 && GetRegion(b, common).Got? {
      var r := GetRegion(b, common);
      GetRegionShrinks(b, common);
      GetChunksShrinks(r.rest, n - 1, common, Insert(so, r.value));
    }
  }

  lemma {:induction false} GetTablesShrinks(b: Bytes)
    ensures GetTables(b).Got? ==> |GetTables(b).rest| <= |b|
  {
    NumbersShrink();
    forall c, n: nat, common
      ensures GetChunks(c, n, common, []).Got? ==> |GetChunks(c, n, common, []).rest| <= |c|
    {
      GetChunksShrinks(c, n, common, []);
    }
  }

  lemma {:induction false} GetSliceShrinks(b: Bytes)
    ensures GetSlice(b).Got? ==> |GetSlice(b).rest| <= |b|
  {
    NumbersShrink();
  }

  lemma {:induction false} GetMetaShrinks(b: Bytes)
    ensures GetMeta(b).Got? ==> |GetMeta(b).rest| <= |b|
  {
    NumbersShrink();
    forall c
      ensures GetSlice(c).Got? ==> |GetSlice(c).rest| <= |c|
      ensures GetTables(c).Got? ==> |GetTables(c).rest| <= |c|
    {
      GetSliceShrinks(c);
      GetTablesShrinks(c);
    }
  }

  /** A field takes something off the input or leaves it as it is, never more. */
  lemma {:induction false} GetFieldShrinks(tag: nat, b: Bytes)
    ensures GetField(tag, b).Got? ==> |GetField(tag, b).rest| <= |b|
  {
    NumbersShrink();
    forall c
      ensures GetSlice(c).Got? ==> |GetSlice(c).rest| <= |c|
      ensures GetMeta(c).Got? ==> |GetMeta(c).rest| <= |c|
    {
      GetSliceShrinks(c);
      GetMetaShrinks(c);
    }
  }

  /** A decoder that takes the first of any fields takes them all, one by one. */
  lemma {:induction false} FieldsThrough(decode: (Edit, Bytes, nat) -> (Edit, Message), e: Edit, fs: seq<Field>,
      rest: Bytes, n: nat, end: nat)
    requires FieldsOk(fs) && n + |fs| == end <= MAX_FIELDS
    requires forall d, gs, m: nat :: FieldsOk(gs) && gs != [] && m < MAX_FIELDS ==>
               decode(d, PutFields(gs, rest), m)
               == decode(Take(d, FieldArrived(gs[0])), PutFields(gs[1..], rest), m + 1)
    ensures decode(e, PutFields(fs, rest), n) == decode(TakeAll(e, AllFieldsArrived(fs)), rest, end)
    decreases |fs|
  {
    if fs != [] {
      var next := Take(e, FieldArrived(fs[0]));
      assert AllFieldsArrived(fs)[1..] == AllFieldsArrived(fs[1..]);
      assert decode(e, PutFields(fs, rest), n) == decode(next, PutFields(fs[1..], rest), n + 1);
      FieldsThrough(decode, next, fs[1..], rest, n + 1, end);
    }
  }

  /** Decoding fields takes them one by one, whatever comes behind them. */
  lemma {:induction false} FieldsBack(e: Edit, fs: seq<Field>, rest: Bytes, n: nat, end: nat)
    requires FieldsOk(fs) && n + |fs| == end <= MAX_FIELDS
    ensures DecodeFields(e, PutFields(fs, rest), n) == DecodeFields(TakeAll(e, AllFieldsArrived(fs)), rest, end)
  {
    forall d, gs, m: nat | FieldsOk(gs) && gs != [] && m < MAX_FIELDS
      ensures DecodeFields(d, PutFields(gs, rest), m) ==
                DecodeFields(Take(d, FieldArrived(gs[0])), PutFields(gs[1..], rest), m + 1)
    {
      FieldBack(d, gs, rest, m);
    }
    FieldsThrough(DecodeFields, e, fs, rest, n, end);
  }

  lemma {:induction false} FieldBack(e: Edit, fs: seq<Field>, rest: Bytes, n: nat)
    requires FieldsOk(fs) && fs != []
    ensures DecodeFields(e, PutFields(fs, rest), n) ==
              if n < MAX_FIELDS then DecodeFields(Take(e, FieldArrived(fs[0])), PutFields(fs[1..], rest), n + 1)
              else (Take(e, FieldArrived(fs[0])), TooMany)
  {
    var f := fs[0];
    var next := PutFields(fs[1..], rest);
    assert f in fs;
    assert TagOf(f) < 128 && Varint(TagOf(f)) == [TagOf(f)];
    Capacity5();
    VarBack(TagOf(f), 5, PutBody(f, next));
    BodyBack(f, next);
  }

  // ----- Whole edits -----

  function NumberFields(e: Edit, tag: nat): seq<Field> {
    if tag in e.numbers then [Number(tag, e.numbers[tag])] else []
  }

  /** The fields in front of the lists. */
  function ScalarFields(e: Edit): seq<Field> {
    (if e.comparator.Some? then [Comparator(e.comparator.value)] else [])
    + NumberFields(e, LOG_NUMBER) + NumberFields(e, PREV_LOG_NUMBER)
    + NumberFields(e, NEXT_FILE_NUMBER) + NumberFields(e, LAST_SEQUENCE)
  }

  function PointerFields(ps: seq<(nat, Bytes)>): seq<Field> {
    seq(|ps|, i requires 0 <= i < |ps| => Pointer(ps[i].0, ps[i].1))
  }

  function DeletedFields(ts: seq<Triple>): seq<Field> {
    seq(|ts|, i requires 0 <= i < |ts| => Deleted(ts[i].0, ts[i].1, ts[i].2))
  }

  function NewFields(fs: seq<(nat, Meta)>): seq<Field> {
    seq(|fs|, i requires 0 <= i < |fs| => New(fs[i].0, fs[i].1))
  }

  /** The fields of an edit in the order in which they are written. */
  function FieldsOf(e: Edit): seq<Field> {
    ScalarFields(e) + PointerFields(e.pointers) + DeletedFields(e.deleted) + NewFields(e.files)
  }

  /** Everything fits the width it is written with. */
  ghost predicate EditOk(e: Edit) {
    && (e.comparator.Some? ==> |e.comparator.value| < TWO32)
    && (forall tag :: tag in e.numbers ==> IsNumberTag(tag) && e.numbers[tag] < Capacity(10))
    && (forall i :: 0 <= i < |e.pointers| ==> e.pointers[i].0 < LEVELS && 0 < |e.pointers[i].1| < TWO32)
    && (forall i :: 0 <= i < |e.deleted| ==>
          e.deleted[i].0 < LEVELS && e.deleted[i].1 < Capacity(10) && e.deleted[i].2 < 256)
    && InOrder(e.deleted)
    && (forall i :: 0 <= i < |e.files| ==> e.files[i].0 < LEVELS && MetaOk(e.files[i].1))
  }

  lemma {:induction false} BothOk(fs: seq<Field>, gs: seq<Field>)
    requires FieldsOk(fs) && FieldsOk(gs)
    ensures FieldsOk(fs + gs)
  {
  }

  lemma {:induction false} ScalarsAreOk(e: Edit)
    requires EditOk(e)
    ensures FieldsOk(ScalarFields(e))
  {
  }

  lemma {:induction false} ListsAreOk(e: Edit)
    requires EditOk(e)
    ensures FieldsOk(PointerFields(e.pointers)) && FieldsOk(DeletedFields(e.deleted)) && FieldsOk(NewFields(e.files))
  {
  }

  lemma {:induction false} FieldsOfAreOk(e: Edit)
    requires EditOk(e)
    ensures FieldsOk(FieldsOf(e))
  {
    ScalarsAreOk(e);
    ListsAreOk(e);
    BothOk(ScalarFields(e), PointerFields(e.pointers));
    BothOk(ScalarFields(e) + PointerFields(e.pointers), DeletedFields(e.deleted));
    BothOk(ScalarFields(e) + PointerFields(e.pointers) + DeletedFields(e.deleted), NewFields(e.files));
  }

  /** The bytes of an edit. */
  ghost function Encode(e: Edit, rest: Bytes): Bytes
    requires EditOk(e)
  {
    FieldsOfAreOk(e);
    PutFields(FieldsOf(e), rest)
  }

  function FilesArrived(fs: seq<(nat, Meta)>): (r: seq<(nat, Meta)>)
    requires forall i :: 0 <= i < |fs| ==> fs[i].1.data != []
    ensures |r| == |fs| && forall i :: 0 <= i < |fs| ==> r[i] == (fs[i].0, Arrived(fs[i].1))
  {
    seq(|fs|, i requires 0 <= i < |fs| => (fs[i].0, Arrived(fs[i].1)))
  }

  /** The edit as it arrives: its new files have their regions' common part from the first one. */
  ghost function EditArrived(e: Edit): Edit
    requires EditOk(e)
  {
    e.(files := FilesArrived(e.files))
  }

  lemma {:induction false} ArrivedAt(fs: seq<Field>, i: nat)
    requires FieldsOk(fs) && i < |fs|
    ensures FieldOk(fs[i]) && AllFieldsArrived(fs)[i] == FieldArrived(fs[i])
    decreases |fs|
  {
    assert fs[0] in fs && fs[i] in fs;
    if |fs| > 1 {
      ArrivedAt(fs[1..], if i > 0 then i - 1 else 0);
    }
  }

  /** The fields in front of the new files. */
  function FrontFields(e: Edit): seq<Field> {
    ScalarFields(e) + PointerFields(e.pointers) + DeletedFields(e.deleted)
  }

  lemma {:induction false} NoneNew(e: Edit, i: nat)
    requires i < |FrontFields(e)|
    ensures !FrontFields(e)[i].New?
  {
  }

  lemma {:induction false} FieldsArriveAsEdit(e: Edit)
    requires EditOk(e) && FieldsOk(FieldsOf(e))
    ensures AllFieldsArrived(FieldsOf(e)) == FieldsOf(EditArrived(e))
  {
    var fs, front, files := FieldsOf(e), FrontFields(e), FilesArrived(e.files);
    var gs := front + NewFields(files);
    assert FrontFields(EditArrived(e)) == front;
    assert fs == front + NewFields(e.files);
    forall i | 0 <= i < |fs|
      ensures AllFieldsArrived(fs)[i] == gs[i]
    {
      ArrivedAt(fs, i);
      if i < |front| {
        NoneNew(e, i);
      } else {
        NewArrives(e.files, i - |front|);
      }
    }
  }

  lemma {:induction false} NewArrives(files: seq<(nat, Meta)>, i: nat)
    requires i < |files| && forall i :: 0 <= i < |files| ==> files[i].1.data != []
    ensures FieldArrived(NewFields(files)[i]) == NewFields(FilesArrived(files))[i]
  {
  }

  lemma {:induction false} TakeAllSplits(e: Edit, a: seq<Field>, b: seq<Field>)
    ensures TakeAll(e, a + b) == TakeAll(TakeAll(e, a), b)
    decreases |a|
  {
    if a == [] {
      assert a + b == b;
    } else {
      assert (a + b)[0] == a[0] && (a + b)[1..] == a[1..] + b;
      TakeAllSplits(Take(e, a[0]), a[1..], b);
    }
  }

  lemma {:induction false} TakePointers(e: Edit, ps: seq<(nat, Bytes)>)
    ensures TakeAll(e, PointerFields(ps)) == e.(pointers := e.pointers + ps)
    decreases |ps|
  {
    if ps == [] {
      assert e.pointers + ps == e.pointers;
    } else {
      assert PointerFields(ps)[1..] == PointerFields(ps[1..]);
      TakePointers(e.(pointers := e.pointers + [ps[0]]), ps[1..]);
      assert e.pointers + [ps[0]] + ps[1..] == e.pointers + ps;
    }
  }

  lemma {:induction false} TakeDeleted(e: Edit, ts: seq<Triple>)
    requires InOrder(e.deleted + ts)
    ensures TakeAll(e, DeletedFields(ts)) == e.(deleted := e.deleted + ts)
    decreases |ts|
  {
    if ts == [] {
      assert e.deleted + ts == e.deleted;
    } else {
      assert DeletedFields(ts)[1..] == DeletedFields(ts[1..]);
      assert e.deleted != [] ==> TripleLess((e.deleted + ts)[|e.deleted| - 1], (e.deleted + ts)[|e.deleted|]);
      assert e.deleted + [ts[0]] + ts[1..] == e.deleted + ts;
      TakeDeleted(e.(deleted := e.deleted + [ts[0]]), ts[1..]);
    }
  }

  lemma {:induction false} TakeNew(e: Edit, fs: seq<(nat, Meta)>)
    ensures TakeAll(e, NewFields(fs)) == e.(files := e.files + fs)
    decreases |fs|
  {
    if fs == [] {
      assert e.files + fs == e.files;
    } else {
      assert NewFields(fs)[1..] == NewFields(fs[1..]);
      TakeNew(e.(files := e.files + [fs[0]]), fs[1..]);
      assert e.files + [fs[0]] + fs[1..] == e.files + fs;
    }
  }

  lemma {:induction false} TakeOne(e: Edit, f: Field)
    ensures TakeAll(e, [f]) == Take(e, f)
  {
    assert [f][1..] == [];
  }

  lemma {:induction false} TakeNumber(e: Edit, d: Edit, tag: nat)
    ensures TakeAll(d, NumberFields(e, tag)) ==
              if tag in e.numbers then d.(numbers := d.numbers[tag := e.numbers[tag]]) else d
  {
    if tag in e.numbers {
      TakeOne(d, Number(tag, e.numbers[tag]));
    }
  }

  /** The numbers of `e` with one of two tags. */
  function NumbersAt(e: Edit, a: nat, b: nat): map<nat, nat> {
    map tag | tag in e.numbers && (tag == a || tag == b) :: e.numbers[tag]
  }

  lemma {:induction false} TakeTwoNumbers(e: Edit, d: Edit, a: nat, b: nat)
    ensures TakeAll(d, NumberFields(e, a) + NumberFields(e, b)) == d.(numbers := d.numbers + NumbersAt(e, a, b))
  {
    TakeAllSplits(d, NumberFields(e, a), NumberFields(e, b));
    TakeNumber(e, d, a);
    TakeNumber(e, TakeAll(d, NumberFields(e, a)), b);
  }

  lemma {:induction false} TakeNumbers(e: Edit, d: Edit)
    requires d.numbers == map[] && forall tag :: tag in e.numbers ==> IsNumberTag(tag)
    ensures TakeAll(d, NumberFields(e, LOG_NUMBER) + NumberFields(e, PREV_LOG_NUMBER)
                       + (NumberFields(e, NEXT_FILE_NUMBER) + NumberFields(e, LAST_SEQUENCE)))
            == d.(numbers := e.numbers)
  {
    var a := NumberFields(e, LOG_NUMBER) + NumberFields(e, PREV_LOG_NUMBER);
    var m, n := NumbersAt(e, LOG_NUMBER, PREV_LOG_NUMBER), NumbersAt(e, NEXT_FILE_NUMBER, LAST_SEQUENCE);
    TakeAllSplits(d, a, NumberFields(e, NEXT_FILE_NUMBER) + NumberFields(e, LAST_SEQUENCE));
    TakeTwoNumbers(e, d, LOG_NUMBER, PREV_LOG_NUMBER);
    TakeTwoNumbers(e, TakeAll(d, a), NEXT_FILE_NUMBER, LAST_SEQUENCE);
    assert map[] + m + n == e.numbers;
  }

  lemma {:induction false} TakeScalars(e: Edit, pointers: seq<(nat, Bytes)>)
    requires forall tag :: tag in e.numbers ==> IsNumberTag(tag)
    ensures TakeAll(EmptyEdit(pointers), ScalarFields(e)) == Edit(e.comparator, e.numbers, pointers, [], [])
  {
    var c := if e.comparator.Some? then [Comparator(e.comparator.value)] else [];
    var n := NumberFields(e, LOG_NUMBER) + NumberFields(e, PREV_LOG_NUMBER)
             + (NumberFields(e, NEXT_FILE_NUMBER) + NumberFields(e, LAST_SEQUENCE));
    assert ScalarFields(e) == c + n;
    if e.comparator.Some? {
      TakeOne(EmptyEdit(pointers), c[0]);
    }
    TakeAllSplits(EmptyEdit(pointers), c, n);
    TakeNumbers(e, TakeAll(EmptyEdit(pointers), c));
  }

  /** Taking the fields of an edit rebuilds it; compaction pointers there before stay in front. */
  lemma {:induction false} TakeAllRebuilds(pointers: seq<(nat, Bytes)>, e: Edit)
    requires InOrder(e.deleted) && forall tag :: tag in e.numbers ==> IsNumberTag(tag)
    ensures TakeAll(EmptyEdit(pointers), FieldsOf(e)) == e.(pointers := pointers + e.pointers)
  {
    var a, b := ScalarFields(e), PointerFields(e.pointers);
    var c, d := DeletedFields(e.deleted), NewFields(e.files);
    TakeScalars(e, pointers);
    TakeAllSplits(EmptyEdit(pointers), a, b);
    var e1 := Edit(e.comparator, e.numbers, pointers, [], []);
    TakePointers(e1, e.pointers);
    TakeAllSplits(EmptyEdit(pointers), a + b, c);
    var e2 := e1.(pointers := pointers + e.pointers);
    assert e2.deleted + e.deleted == e.deleted;
    TakeDeleted(e2, e.deleted);
    TakeAllSplits(EmptyEdit(pointers), a + b + c, d);
    var e3 := e2.(deleted := e.deleted);
    TakeNew(e3, e.files);
    assert e3.files + e.files == e.files;
  }

  lemma {:induction false} EncodedThrough(decode: (Edit, Bytes, nat) -> (Edit, Message), pointers: seq<(nat, Bytes)>,
      e: Edit, rest: Bytes, fs: seq<Field>)
    requires EditOk(e) && fs == FieldsOf(e) && FieldsOk(fs)
    requires decode(EmptyEdit(pointers), PutFields(fs, rest), 0) ==
               decode(TakeAll(EmptyEdit(pointers), AllFieldsArrived(fs)), rest, |fs|)
    ensures decode(EmptyEdit(pointers), Encode(e, rest), 0) ==
              decode(EditArrived(e).(pointers := pointers + e.pointers), rest, |fs|)
  {
    FieldsArriveAsEdit(e);
    TakeAllRebuilds(pointers, EditArrived(e));
  }

  lemma {:induction false} EncodedDecodes(pointers: seq<(nat, Bytes)>, e: Edit, rest: Bytes)
    requires EditOk(e) && |FieldsOf(e)| <= MAX_FIELDS
    ensures DecodeFields(EmptyEdit(pointers), Encode(e, rest), 0) ==
              DecodeFields(EditArrived(e).(pointers := pointers + e.pointers), rest, |FieldsOf(e)|)
  {
    FieldsOfAreOk(e);
    FieldsBack(EmptyEdit(pointers), FieldsOf(e), rest, 0, |FieldsOf(e)|);
    EncodedThrough(DecodeFields, pointers, e, rest, FieldsOf(e));
  }

  /** Decoding an encoded edit gives back its scalar fields, its deleted files and its new files, with the
      metadata of these as it arrives; the compaction pointers the decoder held before stay in front. */
  lemma {:induction false} EditBack(pointers: seq<(nat, Bytes)>, e: Edit)
    requires EditOk(e) && |FieldsOf(e)| <= MAX_FIELDS
    ensures var (d, msg) := DecodeFields(EmptyEdit(pointers), Encode(e, []), 0);
            && msg == NoMessage && d.comparator == e.comparator && d.numbers == e.numbers
            && d.pointers == pointers + e.pointers && d.deleted == e.deleted && |d.files| == |e.files|
            && forall i :: 0 <= i < |e.files| ==> d.files[i] == (e.files[i].0, Arrived(e.files[i].1))
  {
    EncodedDecodes(pointers, e, []);
  }

  /** The edit comes back unchanged exactly when all regions of each new file have the same common part. */
  lemma {:induction false} EditRecovered(e: Edit)
    requires EditOk(e) && |FieldsOf(e)| <= MAX_FIELDS
    ensures DecodeFields(EmptyEdit([]), Encode(e, []), 0) == (e, NoMessage)
       <==> forall i :: 0 <= i < |e.files| ==> Uniform(e.files[i].1)
  {
    EncodedDecodes([], e, []);
    assert [] + e.pointers == e.pointers;
    FilesUnchanged(e.files);
  }

  lemma {:induction false} FilesUnchanged(files: seq<(nat, Meta)>)
    requires forall i :: 0 <= i < |files| ==> files[i].1.data != []
    ensures FilesArrived(files) == files <==> forall i :: 0 <= i < |files| ==> Uniform(files[i].1)
  {
    forall i | 0 <= i < |files|
      ensures FilesArrived(files)[i] == files[i] <==> Uniform(files[i].1)
    {
      UniformArrives(files[i].1);
    }
  }

  /** The sentinel byte of the transfer reads as the tag of a comparator without a name: the status says
      corruption, and yet the whole edit before it is recovered. */
  lemma {:induction false} SentinelBack(pointers: seq<(nat, Bytes)>, e: Edit)
    requires EditOk(e) && |FieldsOf(e)| < MAX_FIELDS
    ensures var (d, msg) := DecodeFields(EmptyEdit(pointers), Encode(e, [1]), 0);
            && msg == BadField(COMPARATOR) && d.comparator == e.comparator && d.numbers == e.numbers
            && d.pointers == pointers + e.pointers && d.deleted == e.deleted && |d.files| == |e.files|
            && forall i :: 0 <= i < |e.files| ==> d.files[i] == (e.files[i].0, Arrived(e.files[i].1))
  {
    EncodedDecodes(pointers, e, [1]);
    assert [1][1..] == [];
    assert GetVar([1], 5) == Got(1, []);
    assert GetVar([], 5) == Fail;
    assert GetSlice([]) == Fail;
  }

  lemma {:induction false} ManyFieldsThrough(decode: (Edit, Bytes, nat) -> (Edit, Message), e: Edit, fs: seq<Field>,
      rest: Bytes, n: nat)
    requires FieldsOk(fs) && n <= MAX_FIELDS < n + |fs|
    requires forall d, gs, m: nat :: FieldsOk(gs) && gs != [] && m < MAX_FIELDS ==>
               decode(d, PutFields(gs, rest), m)
               == decode(Take(d, FieldArrived(gs[0])), PutFields(gs[1..], rest), m + 1)
    requires forall d, gs :: FieldsOk(gs) && gs != [] ==> decode(d, PutFields(gs, rest), MAX_FIELDS).1 == TooMany
    ensures decode(e, PutFields(fs, rest), n).1 == TooMany
    decreases |fs|
  {
    if n < MAX_FIELDS {
      var next := Take(e, FieldArrived(fs[0]));
      assert decode(e, PutFields(fs, rest), n) == decode(next, PutFields(fs[1..], rest), n + 1);
      ManyFieldsThrough(decode, next, fs[1..], rest, n + 1);
    }
  }

  lemma {:induction false} ManyFieldsGiveUp(e: Edit, fs: seq<Field>, rest: Bytes)
    requires FieldsOk(fs) && MAX_FIELDS < |fs|
    ensures DecodeFields(e, PutFields(fs, rest), 0).1 == TooMany
  {
    forall d, gs, m: nat | FieldsOk(gs) && gs != [] && m <= MAX_FIELDS
      ensures m < MAX_FIELDS ==>
                DecodeFields(d, PutFields(gs, rest), m)
                == DecodeFields(Take(d, FieldArrived(gs[0])), PutFields(gs[1..], rest), m + 1)
      ensures m == MAX_FIELDS ==> DecodeFields(d, PutFields(gs, rest), m).1 == TooMany
    {
      FieldBack(d, gs, rest, m);
    }
    ManyFieldsThrough(DecodeFields, e, fs, rest, 0);
  }

  /** An edit with more fields than the decoder counts to is not recovered, and no other one fails. */
  lemma {:induction false} LongEditGivesUp(pointers: seq<(nat, Bytes)>, e: Edit)
    requires EditOk(e)
    ensures DecodeFields(EmptyEdit(pointers), Encode(e, []), 0).1 ==
              if |FieldsOf(e)| <= MAX_FIELDS then NoMessage else TooMany
  {
    FieldsOfAreOk(e);
    if |FieldsOf(e)| <= MAX_FIELDS {
      EditBack(pointers, e);
    } else {
      ManyFieldsGiveUp(EmptyEdit(pointers), FieldsOf(e), []);
    }
  }

  // ----- The decoder's loop -----

  lemma {:induction false} InsertedInOrder(e: Edit, f: Field)
    requires InOrder(e.deleted)
    ensures InOrder(Take(e, f).deleted)
  {
    if f.Deleted? {
      InsertKeepsOrder(e.deleted, (f.level, f.file, f.node));
    }
  }

  /** The decoder's loop.  Whatever the input, the deleted files come out in order. */
  method DecodeEdit(pointers: seq<(nat, Bytes)>, src: Bytes) returns (e: Edit, msg: Message)
    ensures (e, msg) == DecodeFields(EmptyEdit(pointers), src, 0)
    ensures InOrder(e.deleted)
  {
    e, msg := EmptyEdit(pointers), NoMessage;
    var input := src;
    var counter := 0;
    var tag := GetVar(input, 5);
    while msg == NoMessage && tag.Got?
      invariant InOrder(e.deleted) && (msg == NoMessage ==> tag == GetVar(input, 5) && counter <= MAX_FIELDS)
      invariant if msg == NoMessage then DecodeFields(e, input, counter) == DecodeFields(EmptyEdit(pointers), src, 0)
                else (e, msg) == DecodeFields(EmptyEdit(pointers), src, 0)
      decreases msg == NoMessage, |input|
    {
      var f := GetField(tag.value, tag.rest);
      GetVarShrinks(input, 5);
      GetFieldShrinks(tag.value, tag.rest);
      if f.Fail? {
        msg := Complaint(tag.value, tag.rest);
      } else {
        InsertedInOrder(e, f.value);
        e, input := Take(e, f.value), f.rest;
      }
      counter := counter + 1;
      if counter > MAX_FIELDS && msg != Overrun {
        msg := TooMany;
      } else if msg == NoMessage {
        tag := GetVar(input, 5);
      }
    }
    if msg == NoMessage && input != [] {
      msg := InvalidTag;
    }
  }

  // ----- The encoder's loop -----

  lemma {:induction false} SliceAppends(s: Bytes, a: Bytes, b: Bytes)
    ensures PutSlice(s, a + b) == PutSlice(s, a) + b
  {
    assert s + (a + b) == (s + a) + b;
  }

  lemma {:induction false} RegionAppends(c: (nat, Region), a: Bytes, b: Bytes)
    ensures PutRegion(c, a + b) == PutRegion(c, a) + b
  {
    var r := c.1;
    var a3 := Fixed(r.rkey, 4) + a;
    var a2 := Fixed(r.lkey, 4) + a3;
    var a1 := Fixed(r.length, 8) + a2;
    AppendsBehind(Fixed(r.rkey, 4), a, b);
    AppendsBehind(Fixed(r.lkey, 4), a3, b);
    AppendsBehind(Fixed(r.length, 8), a2, b);
    AppendsBehind(Fixed(r.addr, 8), a1, b);
    AppendsBehind(Fixed(c.0, 4), Fixed(r.addr, 8) + a1, b);
  }

  lemma {:induction false} ChunksAppend(cs: Chunks, a: Bytes, b: Bytes)
    ensures PutChunks(cs, a + b) == PutChunks(cs, a) + b
    decreases |cs|
  {
    if cs != [] {
      ChunksAppend(cs[1..], a, b);
      RegionAppends(cs[0], PutChunks(cs[1..], a), b);
    }
  }

  lemma {:induction false} TablesAppend(m: Meta, a: Bytes, b: Bytes)
    requires m.data != []
    ensures PutTables(m, a + b) == PutTables(m, a) + b
  {
    var c := CommonOf(m);
    ChunksAppend(m.filter, a, b);
    var a8 := PutChunks(m.filter, a);
    ChunksAppend(m.index, a8, b);
    var a7 := PutChunks(m.index, a8);
    ChunksAppend(m.data, a7, b);
    var a6 := PutChunks(m.data, a7);
    AppendsBehind(Fixed(c.handle, 4), a6, b);
    var a5 := Fixed(c.handle, 4) + a6;
    AppendsBehind(Fixed(c.pd, 8), a5, b);
    var a4 := Fixed(c.pd, 8) + a5;
    AppendsBehind(Fixed(c.context, 8), a4, b);
    var a3 := Fixed(c.context, 8) + a4;
    AppendsBehind(Fixed(|m.filter|, 8), a3, b);
    var a2 := Fixed(|m.filter|, 8) + a3;
    AppendsBehind(Fixed(|m.index|, 8), a2, b);
    AppendsBehind(Fixed(|m.data|, 8), Fixed(|m.index|, 8) + a2, b);
  }

  lemma {:induction false} MetaAppends(m: Meta, a: Bytes, b: Bytes)
    requires m.data != []
    ensures PutMeta(m, a + b) == PutMeta(m, a) + b
  {
    TablesAppend(m, a, b);
    var a7 := PutTables(m, a);
    SliceAppends(m.largest, a7, b);
    var a6 := PutSlice(m.largest, a7);
    SliceAppends(m.smallest, a6, b);
    var a5 := PutSlice(m.smallest, a6);
    AppendsBehind(Fixed(m.size, 8), a5, b);
    var a4 := Fixed(m.size, 8) + a5;
    AppendsBehind(Fixed(m.shard, 1), a4, b);
    var a3 := Fixed(m.shard, 1) + a4;
    AppendsBehind(Fixed(m.creator, 1), a3, b);
    var a2 := Fixed(m.creator, 1) + a3;
    AppendsBehind(Fixed(m.number, 8), a2, b);
    AppendsBehind(Fixed(m.level, 8), Fixed(m.number, 8) + a2, b);
  }

  lemma {:induction false} AppendsBehind(a: Bytes, b: Bytes, c: Bytes)
    ensures a + (b + c) == (a + b) + c
  {
  }

  lemma {:induction false} BodyAppends(f: Field, a: Bytes, b: Bytes)
    requires f.New? ==> f.meta.data != []
    ensures PutBody(f, a + b) == PutBody(f, a) + b
  {
    match f
    case Comparator(name) =>
      SliceAppends(name, a, b);
    case Number(tag, number) =>
      AppendsBehind(Varint(number), a, b);
    case Pointer(level, key) =>
      SliceAppends(key, a, b);
      AppendsBehind(Varint(level), PutSlice(key, a), b);
    case Deleted(level, file, node) =>
      var c := Fixed(node, 1) + a;
      AppendsBehind(Fixed(node, 1), a, b);
      AppendsBehind(Varint(file), c, b);
      AppendsBehind(Varint(level), Varint(file) + c, b);
    case New(level, m) =>
      MetaAppends(m, a, b);
      AppendsBehind(Varint(level), PutMeta(m, a), b);
  }

  lemma {:induction false} FieldsAppend(fs: seq<Field>, f: Field)
    requires FieldsOk(fs) && FieldsOk(fs + [f]) && FieldOk(f)
    ensures PutFields(fs + [f], []) == PutFields(fs, []) + (Varint(TagOf(f)) + PutBody(f, []))
    decreases |fs|
  {
    if fs == [] {
      assert fs + [f] == [f] && [f][1..] == [];
    } else {
      assert (fs + [f])[0] == fs[0] && (fs + [f])[1..] == fs[1..] + [f];
      FieldsAppend(fs[1..], f);
      var p, t := PutFields(fs[1..], []), Varint(TagOf(f)) + PutBody(f, []);
      BodyAppends(fs[0], p, t);
      AppendsBehind(Varint(TagOf(fs[0])), PutBody(fs[0], p), t);
    }
  }

  lemma {:induction false} FieldIsOk(fs: seq<Field>, i: nat)
    requires FieldsOk(fs) && i < |fs|
    ensures FieldsOk(fs[..i]) && FieldsOk(fs[..i] + [fs[i]]) && FieldOk(fs[i]) && fs[..i + 1] == fs[..i] + [fs[i]]
  {
    assert fs[i] in fs;
    assert forall f :: f in fs[..i] ==> f in fs;
  }

  /** VersionEdit::EncodeTo appends the fields one after the other. */
  method EncodeTo(e: Edit) returns (dst: Bytes)
    requires EditOk(e)
    ensures dst == Encode(e, [])
  {
    FieldsOfAreOk(e);
    var fs := FieldsOf(e);
    dst := [];
    for i := 0 to |fs|
      invariant FieldsOk(fs[..i]) && dst == PutFields(fs[..i], [])
    {
      FieldIsOk(fs, i);
      FieldsAppend(fs[..i], fs[i]);
      dst := dst + (Varint(TagOf(fs[i])) + PutBody(fs[i], []));
    }
    assert fs[..|fs|] == fs;
  }
}
