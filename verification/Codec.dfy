/**
 The encodings that pass between compute and memory node: file metadata and compaction tasks.  An encoder
 puts its bytes in front of `rest`; a decoder takes them off the front again.
 */
module Codec {
  import opened Keys
  import opened Block

  // ----- Parsing -----

  /** A value taken off the front of the input, or the input ran out. */
  datatype Parsed<T> = Fail | Got(value: T, rest: Bytes) {
    predicate IsFailure() {
      Fail?
    }

    function PropagateFailure<U>(): Parsed<U> {
      Fail
    }

    function Extract(): (T, Bytes)
      requires !IsFailure()
    {
      (value, rest)
    }
  }

  /** `width` bytes, low ones first. */
  function Fixed(n: nat, width: nat): Bytes {
    if width == 0 then [] else [n % 256] + Fixed(n / 256, width - 1)
  }

  function GetFixed(b: Bytes, width: nat): Parsed<nat>
    decreases |b|
  {
    if width == 0 then Got(0, b)
    else if b == [] then Fail
    else
      var (high, rest) :- GetFixed(b[1..], width - 1);
      Got(b[0] + 256 * high, rest)
  }

  /** One more than the largest number of `width` bytes. */
  function Range(width: nat): nat {
    if width == 0 then 1 else 256 * Range(width - 1)
  }

  lemma {:induction false} FixedBack(n: nat, width: nat, rest: Bytes)
    requires n < Range(width)
    ensures GetFixed(Fixed(n, width) + rest, width) == Got(n, rest)
    decreases width
  {
    var b := Fixed(n, width) + rest;
    if width == 0 {
      assert b == rest;
    } else {
      assert b[0] == n % 256 && b[1..] == Fixed(n / 256, width - 1) + rest;
      FixedBack(n / 256, width - 1, rest);
    }
  }

  function GetVar(b: Bytes, max: nat): Parsed<nat>
    decreases |b|
  {
    if max == 0 || b == [] then Fail
    else if b[0] < 128 then Got(b[0], b[1..])
    else
      var (high, rest) :- GetVar(b[1..], max - 1);
      Got(b[0] - 128 + 128 * high, rest)
  }

  lemma {:induction false} VarBack(n: nat, max: nat, rest: Bytes)
    requires max > 0 && n < Capacity(max)
    ensures GetVar(Varint(n) + rest, max) == Got(n, rest)
    decreases max
  {
    var b := Varint(n) + rest;
    if n < 128 {
      assert b[0] == n && b[1..] == rest;
    } else {
      assert b[0] == 128 + n % 128 && b[1..] == Varint(n / 128) + rest;
      VarBack(n / 128, max - 1, rest);
    }
  }

  /** A string behind its length. */
  function PutSlice(s: Bytes, rest: Bytes): Bytes {
    Varint(|s|) + (s + rest)
  }

  function GetSlice(b: Bytes): Parsed<Bytes> {
    var (n, r) :- GetVar(b, 5);
    if n <= |r| then Got(r[..n], r[n..]) else Fail
  }

  lemma {:induction false} SliceBack(s: Bytes, rest: Bytes)
    requires |s| < TWO32
    ensures GetSlice(PutSlice(s, rest)) == Got(s, rest)
  {
    Capacity5();
    VarBack(|s|, 5, s + rest);
    assert (s + rest)[..|s|] == s && (s + rest)[|s|..] == rest;
  }

  // ----- File metadata -----

  /** A registered memory region. */
  datatype Region = Region(context: nat, pd: nat, addr: nat, length: nat, handle: nat, lkey: nat, rkey: nat)

  /** What all regions of a table are taken to have in common. */
  datatype CommonPart = CommonPart(context: nat, pd: nat, handle: nat)

  /** The regions of one kind by offset, in ascending order. */
  type Chunks = seq<(nat, Region)>

  datatype Meta = Meta(level: nat, number: nat, creator: nat, shard: nat, size: nat, smallest: Bytes, largest: Bytes,
                       data: Chunks, index: Chunks, filter: Chunks)

  predicate RegionOk(r: Region) {
    && r.context < Range(8) && r.pd < Range(8) && r.handle < Range(4)
    && r.addr < Range(8) && r.length < Range(8) && r.lkey < Range(4) && r.rkey < Range(4)
  }

  ghost predicate ChunksOk(cs: Chunks) {
    && |cs| < Range(8)
    && (forall i :: 0 <= i < |cs| ==> cs[i].0 < Range(4) && RegionOk(cs[i].1))
    && forall i, j :: 0 <= i < j < |cs| ==> cs[i].0 < cs[j].0
  }

  ghost predicate MetaOk(m: Meta) {
    && m.level < Range(8) && m.number < Range(8) && m.creator < 256 && m.shard < 256 && m.size < Range(8)
    && |m.smallest| < TWO32 && |m.largest| < TWO32
    && ChunksOk(m.data) && ChunksOk(m.index) && ChunksOk(m.filter) && m.data != []
  }

  function PutRegion(c: (nat, Region), rest: Bytes): Bytes {
    Fixed(c.0, 4) + (Fixed(c.1.addr, 8) + (Fixed(c.1.length, 8) + (Fixed(c.1.lkey, 4) + (Fixed(c.1.rkey, 4) + rest))))
  }

  function PutChunks(cs: Chunks, rest: Bytes): Bytes {
    if cs == [] then rest else PutRegion(cs[0], PutChunks(cs[1..], rest))
  }

  function GetRegion(b: Bytes, common: CommonPart): Parsed<(nat, Region)> {
    var (offset, b) :- GetFixed(b, 4);
    var (addr, b) :- GetFixed(b, 8);
    var (length, b) :- GetFixed(b, 8);
    var (lkey, b) :- GetFixed(b, 4);
    var (rkey, b) :- GetFixed(b, 4);
    Got((offset, Region(common.context, common.pd, addr, length, common.handle, lkey, rkey)), b)
  }

  /** Insertion into the ordered table: nothing happens if the offset is there already. */
  function Insert(cs: Chunks, c: (nat, Region)): Chunks {
    if cs == [] || cs[|cs| - 1].0 < c.0 then cs + [c]
    else if cs[|cs| - 1].0 == c.0 then cs
    else Insert(cs[..|cs| - 1], c) + [cs[|cs| - 1]]
  }

  /** `n` more regions, inserted into `so`. */
  function GetChunks(b: Bytes, n: nat, common: CommonPart, so: Chunks): Parsed<Chunks>
    decreases n
  {
    if n == 0 then Got(so, b)
    else
      var (c, b) :- GetRegion(b, common);
      GetChunks(b, n - 1, common, Insert(so, c))
  }

  function Shared(c: (nat, Region), common: CommonPart): (nat, Region) {
    (c.0, c.1.(context := common.context, pd := common.pd, handle := common.handle))
  }

  /** The regions as they arrive: with the common part of the table's first one. */
  function AllShared(cs: Chunks, common: CommonPart): (r: Chunks)
    ensures |r| == |cs| && forall i :: 0 <= i < |cs| ==> r[i] == Shared(cs[i], common)
  {
    seq(|cs|, i requires 0 <= i < |cs| => Shared(cs[i], common))
  }

  lemma {:induction false} RegionBack(c: (nat, Region), rest: Bytes, common: CommonPart)
    requires c.0 < Range(4) && RegionOk(c.1)
    ensures GetRegion(PutRegion(c, rest), common) == Got(Shared(c, common), rest)
  {
    var b4 := Fixed(c.1.rkey, 4) + rest;
    var b3 := Fixed(c.1.lkey, 4) + b4;
    var b2 := Fixed(c.1.length, 8) + b3;
    var b1 := Fixed(c.1.addr, 8) + b2;
    FixedBack(c.0, 4, b1);
    FixedBack(c.1.addr, 8, b2);
    FixedBack(c.1.length, 8, b3);
    FixedBack(c.1.lkey, 4, b4);
    FixedBack(c.1.rkey, 4, rest);
  }

  lemma {:induction false} ChunksBack(cs: Chunks, i: nat, rest: Bytes, common: CommonPart)
    requires ChunksOk(cs) && i <= |cs|
    ensures GetChunks(PutChunks(cs[i..], rest), |cs| - i, common, AllShared(cs[..i], common)) ==
              Got(AllShared(cs, common), rest)
    decreases |cs| - i
  {
    if i == |cs| {
      assert cs[..i] == cs;
    } else {
      RegionBack(cs[i], PutChunks(cs[i + 1..], rest), common);
      assert cs[i..][1..] == cs[i + 1..];
      assert cs[..i + 1] == cs[..i] + [cs[i]];
      assert Insert(AllShared(cs[..i], common), Shared(cs[i], common)) == AllShared(cs[..i + 1], common);
      ChunksBack(cs, i + 1, rest, common);
    }
  }

  /** The decoder's loop over the regions of one kind. */
  method DecodeChunks(src: Bytes, n: nat, common: CommonPart) returns (r: Parsed<Chunks>)
    ensures r == GetChunks(src, n, common, [])
  {
    var input, chunks := src, [];
    for i := 0 to n
      invariant GetChunks(input, n - i, common, chunks) == GetChunks(src, n, common, [])
    {
      var c := GetRegion(input, common);
      if c.Fail? {
        return Fail;
      }
      input, chunks := c.rest, Insert(chunks, c.value);
    }
    r := Got(chunks, input);
  }

  function CommonOf(m: Meta): CommonPart
    requires m.data != []
  {
    var r := m.data[0].1;
    CommonPart(r.context, r.pd, r.handle)
  }

  /** What decoding makes of the metadata: all regions get the first data region's common part. */
  function Arrived(m: Meta): Meta
    requires m.data != []
  {
    var c := CommonOf(m);
    m.(data := AllShared(m.data, c), index := AllShared(m.index, c), filter := AllShared(m.filter, c))
  }

  /** All regions have the same common part. */
  ghost predicate Uniform(m: Meta)
    requires m.data != []
  {
    forall c :: c in m.data + m.index + m.filter ==> c == Shared(c, CommonOf(m))
  }

  /** The chunk tables, behind their counts and the common part. */
  function PutTables(m: Meta, rest: Bytes): Bytes
    requires m.data != []
  {
    var c := CommonOf(m);
    Fixed(|m.data|, 8) + (Fixed(|m.index|, 8) + (Fixed(|m.filter|, 8)
      + (Fixed(c.context, 8) + (Fixed(c.pd, 8) + (Fixed(c.handle, 4)
        + PutChunks(m.data, PutChunks(m.index, PutChunks(m.filter, rest))))))))
  }

  function PutMeta(m: Meta, rest: Bytes): Bytes
    requires m.data != []
  {
    Fixed(m.level, 8) + (Fixed(m.number, 8) + (Fixed(m.creator, 1) + (Fixed(m.shard, 1) + (Fixed(m.size, 8)
      + PutSlice(m.smallest, PutSlice(m.largest, PutTables(m, rest)))))))
  }

  datatype Tables = Tables(data: Chunks, index: Chunks, filter: Chunks)

  function GetTables(b: Bytes): Parsed<Tables> {
    var (d, b) :- GetFixed(b, 8);
    var (i, b) :- GetFixed(b, 8);
    var (f, b) :- GetFixed(b, 8);
    var (context, b) :- GetFixed(b, 8);
    var (pd, b) :- GetFixed(b, 8);
    var (handle, b) :- GetFixed(b, 4);
    var c := CommonPart(context, pd, handle);
    var (data, b) :- GetChunks(b, d, c, []);
    var (index, b) :- GetChunks(b, i, c, []);
    var (filter, b) :- GetChunks(b, f, c, []);
    Got(Tables(data, index, filter), b)
  }

  function GetMeta(b: Bytes): Parsed<Meta> {
    var (level, b) :- GetFixed(b, 8);
    var (number, b) :- GetFixed(b, 8);
    var (creator, b) :- GetFixed(b, 1);
    var (shard, b) :- GetFixed(b, 1);
    var (size, b) :- GetFixed(b, 8);
    var (smallest, b) :- GetSlice(b);
    var (largest, b) :- GetSlice(b);
    var (t, b) :- GetTables(b);
    Got(Meta(level, number, creator, shard, size, smallest, largest, t.data, t.index, t.filter), b)
  }

  lemma {:induction false} TablesBack(m: Meta, rest: Bytes)
    requires MetaOk(m)
    ensures GetTables(PutTables(m, rest)) == Got(Tables(Arrived(m).data, Arrived(m).index, Arrived(m).filter), rest)
  {
    var c := CommonOf(m);
    assert RegionOk(m.data[0].1);
    var b8 := PutChunks(m.filter, rest);
    var b7 := PutChunks(m.index, b8);
    var b6 := PutChunks(m.data, b7);
    var b5 := Fixed(c.handle, 4) + b6;
    var b4 := Fixed(c.pd, 8) + b5;
    var b3 := Fixed(c.context, 8) + b4;
    var b2 := Fixed(|m.filter|, 8) + b3;
    var b1 := Fixed(|m.index|, 8) + b2;
    FixedBack(|m.data|, 8, b1);
    FixedBack(|m.index|, 8, b2);
    FixedBack(|m.filter|, 8, b3);
    FixedBack(c.context, 8, b4);
    FixedBack(c.pd, 8, b5);
    FixedBack(c.handle, 4, b6);
    AllChunksBack(m.data, b7, c);
    AllChunksBack(m.index, b8, c);
    AllChunksBack(m.filter, rest, c);
  }

  lemma {:induction false} AllChunksBack(cs: Chunks, rest: Bytes, common: CommonPart)
    requires ChunksOk(cs)
    ensures GetChunks(PutChunks(cs, rest), |cs|, common, []) == Got(AllShared(cs, common), rest)
  {
    ChunksBack(cs, 0, rest, common);
    assert cs[0..] == cs && AllShared(cs[..0], common) == [];
  }

  lemma {:induction false} MetaBack(m: Meta, rest: Bytes)
    requires MetaOk(m)
    ensures GetMeta(PutMeta(m, rest)) == Got(Arrived(m), rest)
  {
    var b7 := PutTables(m, rest);
    var b6 := PutSlice(m.largest, b7);
    var b5 := PutSlice(m.smallest, b6);
    var b4 := Fixed(m.size, 8) + b5;
    var b3 := Fixed(m.shard, 1) + b4;
    var b2 := Fixed(m.creator, 1) + b3;
    var b1 := Fixed(m.number, 8) + b2;
    assert Range(1) == 256;
    FixedBack(m.level, 8, b1);
    FixedBack(m.number, 8, b2);
    FixedBack(m.creator, 1, b3);
    FixedBack(m.shard, 1, b4);
    FixedBack(m.size, 8, b5);
    SliceBack(m.smallest, b6);
    SliceBack(m.largest, b7);
    TablesBack(m, rest);
  }

  lemma {:induction false} SharedAlready(cs: Chunks, common: CommonPart)
    ensures AllShared(cs, common) == cs <==> forall c :: c in cs ==> c == Shared(c, common)
  {
    var r := AllShared(cs, common);
    if r == cs {
      forall c | c in cs
        ensures c == Shared(c, common)
      {
        var i :| 0 <= i < |cs| && cs[i] == c;
        assert r[i] == Shared(c, common);
      }
    }
  }

  /** Decoding recovers the metadata exactly when all its regions have the same common part. */
  lemma {:induction false} MetaRecovered(m: Meta, rest: Bytes)
    requires MetaOk(m)
    ensures GetMeta(PutMeta(m, rest)) == Got(m, rest) <==> Uniform(m)
  {
    MetaBack(m, rest);
    UniformArrives(m);
  }

  lemma {:induction false} UniformArrives(m: Meta)
    requires m.data != []
    ensures Arrived(m) == m <==> Uniform(m)
  {
    var c := CommonOf(m);
    SharedAlready(m.data, c);
    SharedAlready(m.index, c);
    SharedAlready(m.filter, c);
    assert forall x :: x in m.data + m.index + m.filter <==> x in m.data || x in m.index || x in m.filter;
  }

  // ----- Compaction tasks -----

  predicate HaveData(ms: seq<Meta>) {
    forall i :: 0 <= i < |ms| ==> ms[i].data != []
  }

  ghost predicate MetasOk(ms: seq<Meta>) {
    |ms| < Range(4) && HaveData(ms) && forall i :: 0 <= i < |ms| ==> MetaOk(ms[i])
  }

  function PutMetas(ms: seq<Meta>, rest: Bytes): Bytes
    requires HaveData(ms)
  {
    if ms == [] then rest else PutMeta(ms[0], PutMetas(ms[1..], rest))
  }

  function GetMetas(b: Bytes, n: nat): Parsed<seq<Meta>>
    decreases n
  {
    if n == 0 then Got([], b)
    else
      var (m, b) :- GetMeta(b);
      var (ms, b) :- GetMetas(b, n - 1);
      Got([m] + ms, b)
  }

  function AllArrived(ms: seq<Meta>): (r: seq<Meta>)
    requires HaveData(ms)
    ensures |r| == |ms| && forall i :: 0 <= i < |ms| ==> r[i] == Arrived(ms[i])
  {
    if ms == [] then [] else [Arrived(ms[0])] + AllArrived(ms[1..])
  }

  lemma {:induction false} MetasBack(ms: seq<Meta>, rest: Bytes)
    requires MetasOk(ms)
    ensures GetMetas(PutMetas(ms, rest), |ms|) == Got(AllArrived(ms), rest)
  {
    if ms != [] {
      MetaBack(ms[0], PutMetas(ms[1..], rest));
      MetasBack(ms[1..], rest);
    }
  }

  datatype Task = Task(level: nat, first: seq<Meta>, second: seq<Meta>)

  function PutTask(t: Task, rest: Bytes): Bytes
    requires HaveData(t.first) && HaveData(t.second)
  {
    Fixed(t.level, 2) + (Fixed(|t.first|, 4) + PutMetas(t.first, Fixed(|t.second|, 4) + PutMetas(t.second, rest)))
  }

  function GetTask(b: Bytes): Parsed<Task> {
    var (level, b) :- GetFixed(b, 2);
    var (n, b) :- GetFixed(b, 4);
    var (first, b) :- GetMetas(b, n);
    var (m, b) :- GetFixed(b, 4);
    var (second, b) :- GetMetas(b, m);
    Got(Task(level, first, second), b)
  }

  /** The memory node sees the task the compute node sent. */
  lemma {:induction false} TaskBack(t: Task, rest: Bytes)
    requires t.level < Range(2) && MetasOk(t.first) && MetasOk(t.second)
    ensures GetTask(PutTask(t, rest)) == Got(Task(t.level, AllArrived(t.first), AllArrived(t.second)), rest)
  {
    var b3 := PutMetas(t.second, rest);
    var b2 := PutMetas(t.first, Fixed(|t.second|, 4) + b3);
    FixedBack(t.level, 2, Fixed(|t.first|, 4) + b2);
    FixedBack(|t.first|, 4, b2);
    MetasBack(t.first, Fixed(|t.second|, 4) + b3);
    FixedBack(|t.second|, 4, b3);
    MetasBack(t.second, rest);
  }
}
