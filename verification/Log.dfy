/**
 The log format: records cut into fragments that never cross a 32 KB block, each with a checksum, a
 length and a type.
 */
module Log {
  import opened Keys

  type Byte = nat

  const BLOCK_SIZE: nat := 32768
  const HEADER_SIZE: nat := 7

  const ZERO_TYPE: Byte := 0
  const FULL_TYPE: Byte := 1
  const FIRST_TYPE: Byte := 2
  const MIDDLE_TYPE: Byte := 3
  const LAST_TYPE: Byte := 4

  /** The reader's own marks for the end and for a bad record; a fragment may carry them as its type. */
  const EOF_TYPE: Byte := 5
  const BAD_RECORD_TYPE: Byte := 6

  /** The masked CRC of a type and a payload, as four bytes. */
  type Checksum = (Byte, seq<Byte>) -> seq<Byte>

  ghost predicate ChecksumOk(crc: Checksum) {
    forall t, b :: |crc(t, b)| == 4
  }

  function Header(crc: Checksum, t: Byte, payload: seq<Byte>): seq<Byte> {
    crc(t, payload) + [|payload| % 256, |payload| / 256, t]
  }

  function Fragment(crc: Checksum, t: Byte, payload: seq<Byte>): seq<Byte> {
    Header(crc, t, payload) + payload
  }

  /** The zeros that fill a block when no header fits. */
  function Pad(off: nat): seq<Byte>
    requires off <= BLOCK_SIZE
  {
    if BLOCK_SIZE - off < HEADER_SIZE then seq(BLOCK_SIZE - off, i => 0) else []
  }

  /** The offset at which the next fragment begins. */
  function Aligned(off: nat): nat {
    if BLOCK_SIZE - off < HEADER_SIZE then 0 else off
  }

  function TypeOf(begin: bool, end: bool): Byte {
    if begin && end then FULL_TYPE else if begin then FIRST_TYPE else if end then LAST_TYPE else MIDDLE_TYPE
  }

  /** How much of `left` bytes the fragment at an aligned offset takes. */
  function Cut(off: nat, left: nat): nat
    requires off + HEADER_SIZE <= BLOCK_SIZE
  {
    if left < BLOCK_SIZE - off - HEADER_SIZE then left else BLOCK_SIZE - off - HEADER_SIZE
  }

  /** The padding and the fragment that come next, for a record or the rest of one. */
  function Piece(crc: Checksum, off: nat, data: seq<Byte>, begin: bool): seq<Byte>
    requires off <= BLOCK_SIZE
  {
    var n := Cut(Aligned(off), |data|);
    Pad(off) + Fragment(crc, TypeOf(begin, n == |data|), data[..n])
  }

  /** The offset behind that fragment. */
  function Behind(off: nat, data: seq<Byte>): nat
    requires off <= BLOCK_SIZE
  {
    Aligned(off) + HEADER_SIZE + Cut(Aligned(off), |data|)
  }

  /** The part of the record that remains. */
  function Remaining(off: nat, data: seq<Byte>): seq<Byte>
    requires off <= BLOCK_SIZE
  {
    data[Cut(Aligned(off), |data|)..]
  }

  /** The bytes written for a record, or the rest of one, from block offset `off` on. */
  function Emit(crc: Checksum, off: nat, data: seq<Byte>, begin: bool): seq<Byte>
    requires off <= BLOCK_SIZE
    decreases |data|, if Aligned(off) + HEADER_SIZE == BLOCK_SIZE then 1 else 0
  {
    if Remaining(off, data) == [] then Piece(crc, off, data, begin)
    else Piece(crc, off, data, begin) + Emit(crc, Behind(off, data), Remaining(off, data), false)
  }

  /** The block offset behind the record. */
  function EmitEnd(off: nat, data: seq<Byte>): (r: nat)
    requires off <= BLOCK_SIZE
    ensures r <= BLOCK_SIZE
    decreases |data|, if Aligned(off) + HEADER_SIZE == BLOCK_SIZE then 1 else 0
  {
    if Remaining(off, data) == [] then Behind(off, data) else EmitEnd(Behind(off, data), Remaining(off, data))
  }

  // ----- The writer -----

  class Writer {
    var dest: seq<Byte>
    var blockOffset: nat

    ghost predicate Valid()
      reads this
    {
      blockOffset <= BLOCK_SIZE && blockOffset % BLOCK_SIZE == |dest| % BLOCK_SIZE
    }

    /** Opening a file that may have content already. */
    constructor (file: seq<Byte>)
      ensures Valid() && dest == file
    {
      dest := file;
      blockOffset := |file| % BLOCK_SIZE;
    }

    method EmitPhysicalRecord(crc: Checksum, t: Byte, payload: seq<Byte>)
      requires ChecksumOk(crc) && blockOffset + HEADER_SIZE + |payload| <= BLOCK_SIZE
      modifies this
      ensures dest == old(dest) + Fragment(crc, t, payload)
      ensures blockOffset == old(blockOffset) + HEADER_SIZE + |payload|
    {
      var length := |payload|;
      dest := dest + (crc(t, payload) + [length % 256, length / 256, t]);
      dest := dest + payload;
      assert dest == old(dest) + Fragment(crc, t, payload);
      blockOffset := blockOffset + HEADER_SIZE + length;
    }

    /** One round of AddRecord's loop. */
    method AddFragment(crc: Checksum, left: seq<Byte>, begin: bool) returns (rest: seq<Byte>)
      requires ChecksumOk(crc) && blockOffset <= BLOCK_SIZE
      modifies this
      ensures dest == old(dest) + Piece(crc, old(blockOffset), left, begin)
      ensures blockOffset == Behind(old(blockOffset), left) && rest == Remaining(old(blockOffset), left)
    {
      var leftover := BLOCK_SIZE - blockOffset;
      if leftover < HEADER_SIZE {
        if leftover > 0 {
          dest := dest + seq(leftover, i => 0);
        }
        blockOffset := 0;
      }
      assert dest == old(dest) + Pad(old(blockOffset));
      var avail := BLOCK_SIZE - blockOffset - HEADER_SIZE;
      var length := if |left| < avail then |left| else avail;
      EmitPhysicalRecord(crc, TypeOf(begin, |left| == length), left[..length]);
      rest := left[length..];
      ghost var piece := Fragment(crc, TypeOf(begin, length == |left|), left[..length]);
      assert dest == old(dest) + (Pad(old(blockOffset)) + piece);
    }

    /** What is appended depends on the offset in the block only. */
    method AddRecord(crc: Checksum, data: seq<Byte>)
      requires ChecksumOk(crc) && Valid()
      modifies this
      ensures dest == old(dest) + Emit(crc, old(blockOffset), data, true)
      ensures blockOffset == EmitEnd(old(blockOffset), data) && Valid()
    {
      ghost var all, end := dest + Emit(crc, blockOffset, data, true), EmitEnd(blockOffset, data);
      EmitOnto(crc, dest, blockOffset, data, true);
      var left := AddFragment(crc, data, true);
      while left != []
        invariant blockOffset <= BLOCK_SIZE
        invariant left == [] ==> dest == all && blockOffset == end
        invariant left != [] ==> dest + Emit(crc, blockOffset, left, false) == all && EmitEnd(blockOffset, left) == end
        decreases |left|, if Aligned(blockOffset) + HEADER_SIZE == BLOCK_SIZE then 1 else 0
      {
        EmitOnto(crc, dest, blockOffset, left, false);
        left := AddFragment(crc, left, false);
      }
      OffsetFollows(crc, old(blockOffset), |old(dest)|, data);
    }
  }

  lemma {:induction false} EmitOnto(crc: Checksum, dest: seq<Byte>, off: nat, data: seq<Byte>, begin: bool)
    requires off <= BLOCK_SIZE
    ensures dest + Emit(crc, off, data, begin) == dest + Piece(crc, off, data, begin)
              + if Remaining(off, data) == [] then [] else Emit(crc, Behind(off, data), Remaining(off, data), false)
  {
  }

  /** How many times the record goes on to a new block. */
  function Blocks(off: nat, data: seq<Byte>): nat
    requires off <= BLOCK_SIZE
    decreases |data|, if Aligned(off) + HEADER_SIZE == BLOCK_SIZE then 1 else 0
  {
    (if Aligned(off) == off then 0 else 1)
    + if Remaining(off, data) == [] then 0 else Blocks(Behind(off, data), Remaining(off, data))
  }

  lemma {:induction false} EmitLength(crc: Checksum, off: nat, data: seq<Byte>, begin: bool)
    requires ChecksumOk(crc) && off <= BLOCK_SIZE
    ensures off + |Emit(crc, off, data, begin)| == EmitEnd(off, data) + BLOCK_SIZE * Blocks(off, data)
    decreases |data|, if Aligned(off) + HEADER_SIZE == BLOCK_SIZE then 1 else 0
  {
    assert off + |Piece(crc, off, data, begin)| == Behind(off, data) + if Aligned(off) == off then 0 else BLOCK_SIZE;
    if Remaining(off, data) != [] {
      EmitLength(crc, Behind(off, data), Remaining(off, data), false);
    }
  }

  /** The writer's offset stays that of the end of the file. */
  lemma {:induction false} OffsetFollows(crc: Checksum, off: nat, len: nat, data: seq<Byte>)
    requires ChecksumOk(crc) && off <= BLOCK_SIZE && off % BLOCK_SIZE == len % BLOCK_SIZE
    ensures EmitEnd(off, data) % BLOCK_SIZE == (len + |Emit(crc, off, data, true)|) % BLOCK_SIZE
  {
    EmitLength(crc, off, data, true);
    SameOffset(off, len, |Emit(crc, off, data, true)|, EmitEnd(off, data), Blocks(off, data));
  }

  lemma {:induction false} SameOffset(off: nat, len: nat, n: nat, end: nat, k: nat)
    requires off % BLOCK_SIZE == len % BLOCK_SIZE && off + n == end + BLOCK_SIZE * k
    ensures end % BLOCK_SIZE == (len + n) % BLOCK_SIZE
  {
  }

  // ----- The reader -----

  /** A place in the file: a block and an offset in it. */
  datatype Place = Place(start: int, off: nat)

  function Absolute(p: Place): int {
    p.start + p.off
  }

  /** Where the next header can be. */
  function Next(p: Place): Place {
    if BLOCK_SIZE - p.off < HEADER_SIZE then Place(p.start + BLOCK_SIZE, 0) else p
  }

  /** What ReadPhysicalRecord finds: the end, something to skip, or a fragment. */
  datatype Physical = End | Skip(report: bool) | Got(t: Byte, payload: seq<Byte>)

  /** What the buffer begins with, and how much of it that uses up; `eof` says that it is not the rest
      of a whole block. */
  function ParseBuffer(crc: Checksum, buffer: seq<Byte>, eof: bool): (Physical, nat)
    requires HEADER_SIZE <= |buffer|
  {
    var length, t := buffer[4] + 256 * buffer[5], buffer[6];
    if HEADER_SIZE + length > |buffer| then (if eof then End else Skip(true), |buffer|)
    else if t == ZERO_TYPE && length == 0 then (Skip(false), |buffer|)
    else
      var payload := buffer[HEADER_SIZE..HEADER_SIZE + length];
      if buffer[..4] != crc(t, payload) then (Skip(true), |buffer|) else (Got(t, payload), HEADER_SIZE + length)
  }

  /** The fragment at `q`, and the place behind it, in a block of which the file has the bytes up to
      `end`. */
  function Parse(crc: Checksum, file: seq<Byte>, q: Place, end: nat, eof: bool): (Physical, Place)
    requires 0 <= Absolute(q) && Absolute(q) + HEADER_SIZE <= end <= |file| && q.start <= end
  {
    var (r, n) := ParseBuffer(crc, file[Absolute(q)..end], eof);
    (r, Place(q.start, q.off + n))
  }

  /** How far the file goes in the block that begins at `start`. */
  function BlockEnd(file: seq<Byte>, start: int): int {
    if start + BLOCK_SIZE <= |file| then start + BLOCK_SIZE else |file|
  }

  /** What a reader at `p` finds, and where it then stands. */
  function PhysicalAt(crc: Checksum, file: seq<Byte>, p: Place): (Physical, Place) {
    var q := Next(p);
    if Absolute(p) < 0 || p.off > BLOCK_SIZE || Absolute(q) + HEADER_SIZE > |file| then (End, p)
    else Parse(crc, file, q, BlockEnd(file, q.start), |file| < q.start + BLOCK_SIZE)
  }

  lemma {:induction false} PhysicalAdvances(crc: Checksum, file: seq<Byte>, p: Place)
    requires 0 <= Absolute(p) && p.off <= BLOCK_SIZE
    ensures var (r, p') := PhysicalAt(crc, file, p);
            !r.End? ==> p'.off <= BLOCK_SIZE && Absolute(p) < Absolute(p') <= |file|
  {
  }

  /** What the physical records of a file are, place by place. */
  type Physicals = Place -> (Physical, Place)

  function PhysicalsOf(crc: Checksum, file: seq<Byte>): Physicals {
    p => PhysicalAt(crc, file, p)
  }

  /** `phys` is what there is to find in the file. */
  ghost predicate Finds(phys: Physicals, crc: Checksum, file: seq<Byte>) {
    forall p {:trigger PhysicalAt(crc, file, p)} :: phys(p) == PhysicalAt(crc, file, p)
  }

  lemma {:induction false} PhysAdvances(phys: Physicals, crc: Checksum, file: seq<Byte>, p: Place)
    requires Finds(phys, crc, file) && 0 <= Absolute(p) && p.off <= BLOCK_SIZE
    ensures var (r, p') := phys(p);
            !r.End? ==> p'.off <= BLOCK_SIZE && Absolute(p) < Absolute(p') <= |file|
  {
    PhysicalAdvances(crc, file, p);
    assert phys(p) == PhysicalAt(crc, file, p);
  }

  /** What ReadRecord does on one physical record: stop, return a record, or go on with the fragments
      collected, in each case reporting a number of corruptions. */
  datatype Action = Stop | Return(record: seq<Byte>, reports: nat) | Go(partial: Option<seq<Byte>>, reports: nat)

  /** `partial` holds the fragments so far when inside a record. */
  function React(r: Physical, partial: Option<seq<Byte>>): Action {
    var lost := if partial.Some? && partial.value != [] then 1 else 0;
    match r
    case End => Stop
    case Skip(report) => Go(None, (if report then 1 else 0) + if partial.Some? then 1 else 0)
    case Got(t, payload) =>
      if t == EOF_TYPE then Stop
      else if t == BAD_RECORD_TYPE then Go(None, if partial.Some? then 1 else 0)
      else if t == FULL_TYPE then Return(payload, lost)
      else if t == FIRST_TYPE then Go(Some(payload), lost)
      else if t == MIDDLE_TYPE && partial.Some? then Go(Some(partial.value + payload), 0)
      else if t == LAST_TYPE && partial.Some? then Return(partial.value + payload, 0)
      else Go(None, 1)
  }

  /** The result of ReadRecord. */
  datatype Read = NoMore(reports: nat) | Record(data: seq<Byte>, at: Place, reports: nat)

  function Report(r: Read, n: nat): Read {
    match r
    case NoMore(m) => NoMore(n + m)
    case Record(data, at, m) => Record(data, at, n + m)
  }

  /** ReadRecord from `p` in a file of length `len`. */
  function RecordAt(phys: Physicals, len: nat, p: Place, partial: Option<seq<Byte>>): Read
    decreases len - Absolute(p)
  {
    var (r, p') := phys(p);
    match React(r, partial)
    case Stop => NoMore(0)
    case Return(record, n) => Record(record, p', n)
    case Go(partial', n) =>
      if Absolute(p) < Absolute(p') <= len then Report(RecordAt(phys, len, p', partial'), n) else NoMore(n)
  }

  /** All records from `p` on. */
  function RecordsFrom(phys: Physicals, len: nat, p: Place): seq<seq<Byte>>
    decreases len - Absolute(p)
  {
    var r := RecordAt(phys, len, p, None);
    if r.NoMore? then []
    else [r.data] + if Absolute(p) < Absolute(r.at) <= len then RecordsFrom(phys, len, r.at) else []
  }

  /** All corruptions reported from `p` on. */
  function ReportsFrom(phys: Physicals, len: nat, p: Place): nat
    decreases len - Absolute(p)
  {
    var r := RecordAt(phys, len, p, None);
    r.reports + if r.Record? && Absolute(p) < Absolute(r.at) <= len then ReportsFrom(phys, len, r.at) else 0
  }

  class Reader {
    const file: seq<Byte>
    var buffer: seq<Byte>
    var eof: bool
    var endOfBuffer: nat
    var reports: nat
    ghost var start: int

    ghost predicate Valid()
      reads this
    {
      && |buffer| <= endOfBuffer <= |file| && buffer == file[endOfBuffer - |buffer|..endOfBuffer]
      && start <= endOfBuffer - |buffer|
      && if eof then endOfBuffer == |file| < start + BLOCK_SIZE else endOfBuffer == start + BLOCK_SIZE
    }

    ghost function At(): Place
      requires Valid()
      reads this
    {
      Place(start, endOfBuffer - |buffer| - start)
    }

    constructor (f: seq<Byte>)
      ensures Valid() && At() == Place(0 - BLOCK_SIZE, BLOCK_SIZE) && file == f && reports == 0
    {
      file := f;
      buffer := [];
      eof := false;
      endOfBuffer := 0;
      reports := 0;
      start := 0 - BLOCK_SIZE;
      new;
      assert file[0..0] == [];
    }

    /** The next block, or what there is of it. */
    method ReadBlock()
      requires Valid() && !eof
      modifies this`buffer, this`eof, this`endOfBuffer, this`start
      ensures Valid() && At() == Place(old(endOfBuffer), 0) && (|buffer| == BLOCK_SIZE || eof)
    {
      start := endOfBuffer;
      buffer := file[endOfBuffer..if endOfBuffer + BLOCK_SIZE <= |file| then endOfBuffer + BLOCK_SIZE else |file|];
      endOfBuffer := endOfBuffer + |buffer|;
      if |buffer| < BLOCK_SIZE {
        eof := true;
      }
    }

    /** Read blocks until a header is in the buffer or the file ends. */
    method Fill()
      requires Valid()
      modifies this`buffer, this`eof, this`endOfBuffer, this`start
      ensures Valid() && (|buffer| >= HEADER_SIZE || eof)
      ensures if |buffer| >= HEADER_SIZE then At() == Next(old(At()))
              else Absolute(Next(old(At()))) + HEADER_SIZE > |file|
      ensures 0 <= old(Absolute(At())) && old(At()).off <= BLOCK_SIZE
    {
      while |buffer| < HEADER_SIZE && !eof
        invariant Valid() && Next(At()) == Next(old(At()))
        decreases !eof, HEADER_SIZE - |buffer|
      {
        ReadBlock();
      }
    }

    method ReadPhysicalRecord(crc: Checksum, ghost phys: Physicals) returns (r: Physical)
      requires Valid() && ChecksumOk(crc) && Finds(phys, crc, file)
      modifies this`buffer, this`eof, this`endOfBuffer, this`start, this`reports
      ensures Valid() && r == phys(old(At())).0
      ensures !r.End? ==> At() == phys(old(At())).1
      ensures reports == old(reports) + if r.Skip? && r.report then 1 else 0
    {
      ghost var p := At();
      assert phys(p) == PhysicalAt(crc, file, p);
      Fill();
      if |buffer| < HEADER_SIZE {
        NothingIsThere(crc, file, p);
        buffer := [];
        r := End;
      } else {
        r := ParseRecord(crc, p);
      }
    }

    /** The record at the front of the buffer, which is what there is to find from `p` on. */
    method ParseRecord(crc: Checksum, ghost p: Place) returns (r: Physical)
      requires Valid() && ChecksumOk(crc) && |buffer| >= HEADER_SIZE
      requires At() == Next(p) && 0 <= Absolute(p) && p.off <= BLOCK_SIZE
      modifies this`buffer, this`reports
      ensures Valid() && r == PhysicalAt(crc, file, p).0 && At() == PhysicalAt(crc, file, p).1
      ensures reports == old(reports) + if r.Skip? && r.report then 1 else 0
    {
      ghost var q := At();
      var n;
      r, n := ParseFront(crc);
      ParsedAt(crc, file, p, q, endOfBuffer, eof, r, n);
      DropFront(file, buffer, endOfBuffer, n);
      buffer := buffer[n..];
      assert At() == Place(q.start, q.off + n);
    }

    /** Looks at the buffer; tells how much of it is done with. */
    method ParseFront(crc: Checksum) returns (r: Physical, n: nat)
      requires ChecksumOk(crc) && |buffer| >= HEADER_SIZE
      modifies this`reports
      ensures (r, n) == ParseBuffer(crc, buffer, eof) && n <= |buffer|
      ensures reports == old(reports) + if r.Skip? && r.report then 1 else 0
    {
      var length, t := buffer[4] + 256 * buffer[5], buffer[6];
      n := |buffer|;
      if HEADER_SIZE + length > |buffer| {
        if !eof {
          reports := reports + 1;
          return Skip(true), n;
        }
        return End, n;
      }
      if t == ZERO_TYPE && length == 0 {
        return Skip(false), n;
      }
      var payload := buffer[HEADER_SIZE..HEADER_SIZE + length];
      if buffer[..4] != crc(t, payload) {
        reports := reports + 1;
        return Skip(true), n;
      }
      return Got(t, payload), HEADER_SIZE + length;
    }

    /** What ReadRecord does with a physical record.  A damaged one has been reported already. */
    method Handle(r: Physical, scratch: Option<seq<Byte>>) returns (action: Action)
      modifies this`reports
      ensures action == React(r, scratch)
      ensures !action.Stop? ==> reports + (if r.Skip? && r.report then 1 else 0) == old(reports) + action.reports
      ensures action.Stop? ==> reports == old(reports)
    {
      var before := reports;
      match r
      case End =>
        return Stop;
      case Skip(report) =>
        if scratch.Some? {
          reports := reports + 1;
        }
        return Go(None, reports - before + if report then 1 else 0);
      case Got(t, payload) =>
        if t == EOF_TYPE {
          return Stop;
        } else if t == BAD_RECORD_TYPE {
          if scratch.Some? {
            reports := reports + 1;
          }
          return Go(None, reports - before);
        } else if t == FULL_TYPE || t == FIRST_TYPE {
          if scratch.Some? && scratch.value != [] {
            reports := reports + 1;
          }
          return if t == FULL_TYPE then Return(payload, reports - before) else Go(Some(payload), reports - before);
        } else if (t == MIDDLE_TYPE || t == LAST_TYPE) && scratch.Some? {
          var so := scratch.value + payload;
          return if t == LAST_TYPE then Return(so, 0) else Go(Some(so), 0);
        } else {
          reports := reports + 1;
          return Go(None, 1);
        }
    }

    /** One round of ReadRecord. */
    method TakePhysical(crc: Checksum, scratch: Option<seq<Byte>>, ghost phys: Physicals) returns (action: Action)
      requires Valid() && ChecksumOk(crc) && Finds(phys, crc, file)
      modifies this`buffer, this`eof, this`endOfBuffer, this`start, this`reports
      ensures Valid() && action == React(phys(old(At())).0, scratch)
      ensures !action.Stop? ==> At() == phys(old(At())).1
      ensures reports == old(reports) + if action.Stop? then 0 else action.reports
    {
      var r := ReadPhysicalRecord(crc, phys);
      action := Handle(r, scratch);
    }

    method ReadRecord(crc: Checksum, ghost phys: Physicals) returns (record: Option<seq<Byte>>)
      requires Valid() && ChecksumOk(crc) && Finds(phys, crc, file)
      modifies this`buffer, this`eof, this`endOfBuffer, this`start, this`reports
      ensures Valid() && reports >= old(reports)
      ensures RecordAt(phys, |file|, old(At()), None) == match record
                case None => NoMore(reports - old(reports))
                case Some(data) => Record(data, At(), reports - old(reports))
    {
      var scratch: Option<seq<Byte>> := None;
      while true
        invariant Valid() && reports >= old(reports)
        invariant RecordAt(phys, |file|, old(At()), None) ==
                    Report(RecordAt(phys, |file|, At(), scratch), reports - old(reports))
        decreases |file| - Absolute(At())
      {
        PhysAdvances(phys, crc, file, At());
        var action := TakePhysical(crc, scratch, phys);
        match action
        case Stop =>
          return None;
        case Return(data, _) =>
          return Some(data);
        case Go(partial, _) =>
          scratch := partial;
      }
    }
  }

  lemma {:induction false} ParsedAt(crc: Checksum, file: seq<Byte>, p: Place, q: Place, end: nat, eof: bool,
      r: Physical, n: nat)
    requires 0 <= Absolute(p) && p.off <= BLOCK_SIZE && q == Next(p) && Absolute(q) + HEADER_SIZE <= end
    requires if eof then end == |file| < q.start + BLOCK_SIZE else end == q.start + BLOCK_SIZE <= |file|
    requires (r, n) == ParseBuffer(crc, file[Absolute(q)..end], eof)
    ensures PhysicalAt(crc, file, p) == (r, Place(q.start, q.off + n))
  {
    HeaderIsThere(crc, file, p, q, end, eof);
  }

  lemma {:induction false} HeaderIsThere(crc: Checksum, file: seq<Byte>, p: Place, q: Place, end: nat, eof: bool)
    requires 0 <= Absolute(p) && p.off <= BLOCK_SIZE && q == Next(p) && Absolute(q) + HEADER_SIZE <= end
    requires if eof then end == |file| < q.start + BLOCK_SIZE else end == q.start + BLOCK_SIZE <= |file|
    ensures PhysicalAt(crc, file, p) == Parse(crc, file, q, end, eof)
  {
  }

  lemma {:induction false} NothingIsThere(crc: Checksum, file: seq<Byte>, p: Place)
    requires Absolute(Next(p)) + HEADER_SIZE > |file|
    ensures PhysicalAt(crc, file, p).0 == End
  {
  }

  lemma {:induction false} DropFront(file: seq<Byte>, buffer: seq<Byte>, end: nat, n: nat)
    requires n <= |buffer| <= end <= |file| && buffer == file[end - |buffer|..end]
    ensures buffer[n..] == file[end - (|buffer| - n)..end]
  {
    Slices(file, end - |buffer|, end, n, |buffer|);
  }

  lemma {:induction false} Slices(file: seq<Byte>, q: nat, end: nat, a: nat, b: nat)
    requires q <= end <= |file| && a <= b <= end - q
    ensures file[q..end][a..b] == file[q + a..q + b]
  {
    forall i | 0 <= i < b - a
      ensures file[q..end][a..b][i] == file[q + a..q + b][i]
    {
    }
  }

  // ----- Reading back what was written -----

  /** As far as the file goes, it holds `bytes` from `p` on. */
  ghost predicate Agrees(file: seq<Byte>, p: nat, bytes: seq<Byte>) {
    forall i :: 0 <= i < |bytes| && p + i < |file| ==> file[p + i] == bytes[i]
  }

  lemma {:induction false} AgreesParts(file: seq<Byte>, p: nat, a: seq<Byte>, b: seq<Byte>)
    requires Agrees(file, p, a + b)
    ensures Agrees(file, p, a) && Agrees(file, p + |a|, b)
  {
    forall i | 0 <= i < |a| && p + i < |file|
      ensures file[p + i] == a[i]
    {
      assert (a + b)[i] == a[i];
    }
    forall i | 0 <= i < |b| && p + |a| + i < |file|
      ensures file[p + |a| + i] == b[i]
    {
      assert (a + b)[|a| + i] == b[i];
      assert file[p + (|a| + i)] == (a + b)[|a| + i];
    }
  }

  lemma {:induction false} AgreesWhole(file: seq<Byte>, p: nat, bytes: seq<Byte>, end: nat)
    requires Agrees(file, p, bytes) && p + |bytes| <= end <= |file|
    ensures file[p..end][..|bytes|] == bytes
  {
    forall i | 0 <= i < |bytes|
      ensures file[p..end][..|bytes|][i] == bytes[i]
    {
      assert file[p + i] == bytes[i];
    }
  }

  /** A buffer that begins with a fragment, or with the beginning of one. */
  lemma {:induction false} FragmentParsed(crc: Checksum, buffer: seq<Byte>, eof: bool, t: Byte, payload: seq<Byte>)
    requires ChecksumOk(crc) && t != ZERO_TYPE
    requires HEADER_SIZE <= |buffer| && buffer[..HEADER_SIZE] == Header(crc, t, payload)
    requires HEADER_SIZE + |payload| <= |buffer| ==> buffer[HEADER_SIZE..HEADER_SIZE + |payload|] == payload
    ensures HEADER_SIZE + |payload| <= |buffer| ==>
              ParseBuffer(crc, buffer, eof) == (Got(t, payload), HEADER_SIZE + |payload|)
    ensures HEADER_SIZE + |payload| > |buffer| && eof ==> ParseBuffer(crc, buffer, eof).0 == End
  {
    var h := buffer[..HEADER_SIZE];
    assert buffer[4] == h[4] == |payload| % 256 && buffer[5] == h[5] == |payload| / 256 && buffer[6] == h[6] == t;
    assert buffer[..4] == h[..4] == crc(t, payload);
  }

  /** A fragment that is all there is read back; one that is cut off is the end. */
  lemma {:induction false} FragmentReadBack(crc: Checksum, file: seq<Byte>, p: Place, q: Place, t: Byte,
      payload: seq<Byte>)
    requires ChecksumOk(crc) && 0 <= Absolute(p) && p.off <= BLOCK_SIZE && q == Next(p) && t != ZERO_TYPE
    requires q.off + HEADER_SIZE + |payload| <= BLOCK_SIZE && Agrees(file, Absolute(q), Fragment(crc, t, payload))
    ensures var end := Absolute(q) + HEADER_SIZE + |payload|;
            var (r, p') := PhysicalAt(crc, file, p);
            if end <= |file| then r == Got(t, payload) && p' == Place(q.start, q.off + HEADER_SIZE + |payload|)
            else r == End
  {
    var a := Absolute(q);
    AgreesParts(file, a, Header(crc, t, payload), payload);
    if a + HEADER_SIZE <= |file| {
      var end := if q.start + BLOCK_SIZE <= |file| then q.start + BLOCK_SIZE else |file|;
      AgreesWhole(file, a, Header(crc, t, payload), end);
      if a + HEADER_SIZE + |payload| <= |file| {
        AgreesWhole(file, a + HEADER_SIZE, payload, end);
        Slices(file, a, end, HEADER_SIZE, HEADER_SIZE + |payload|);
        Slices(file, a + HEADER_SIZE, end, 0, |payload|);
      }
      FragmentParsed(crc, file[a..end], |file| < q.start + BLOCK_SIZE, t, payload);
    }
  }

  /** The place behind a piece. */
  function PlaceBehind(p: Place, data: seq<Byte>): Place
    requires p.off <= BLOCK_SIZE
  {
    Place(Next(p).start, Behind(p.off, data))
  }

  lemma {:induction false} PieceReadBack(phys: Physicals, crc: Checksum, file: seq<Byte>, p: Place,
      data: seq<Byte>, begin: bool)
    requires ChecksumOk(crc) && Finds(phys, crc, file) && 0 <= Absolute(p) && p.off <= BLOCK_SIZE
    requires Agrees(file, Absolute(p), Piece(crc, p.off, data, begin))
    ensures Absolute(PlaceBehind(p, data)) == Absolute(p) + |Piece(crc, p.off, data, begin)|
    ensures var n := Cut(Aligned(p.off), |data|);
            var (r, p') := phys(p);
            if Absolute(PlaceBehind(p, data)) <= |file|
            then r == Got(TypeOf(begin, n == |data|), data[..n]) && p' == PlaceBehind(p, data) else r == End
  {
    var q, n := Next(p), Cut(Aligned(p.off), |data|);
    var t := TypeOf(begin, n == |data|);
    AgreesParts(file, Absolute(p), Pad(p.off), Fragment(crc, t, data[..n]));
    FragmentReadBack(crc, file, p, q, t, data[..n]);
  }

  /** What has been collected of a record: nothing at its beginning. */
  function Collected(begin: bool, so: seq<Byte>): Option<seq<Byte>> {
    if begin then None else Some(so)
  }

  /** The last fragment of a record completes it, another one is collected, and the end of the file
      ends the read without a report. */
  lemma {:induction false} AfterFragment(phys: Physicals, len: nat, p: Place, begin: bool, so: seq<Byte>,
      end: bool, payload: seq<Byte>)
    requires begin ==> so == []
    requires phys(p).0 == End || phys(p).0 == Got(TypeOf(begin, end), payload)
    ensures var (r, p') := phys(p);
            && (r == End ==> RecordAt(phys, len, p, Collected(begin, so)) == NoMore(0))
            && (r != End && end ==> RecordAt(phys, len, p, Collected(begin, so)) == Record(so + payload, p', 0))
            && (r != End && !end && Absolute(p) < Absolute(p') <= len ==>
                  RecordAt(phys, len, p, Collected(begin, so)) == RecordAt(phys, len, p', Some(so + payload)))
  {
    assert [] + payload == payload;
  }

  /** The place behind a record. */
  function RecordEnd(p: Place, data: seq<Byte>): Place
    requires p.off <= BLOCK_SIZE
    decreases |data|, if Aligned(p.off) + HEADER_SIZE == BLOCK_SIZE then 1 else 0
  {
    if Remaining(p.off, data) == [] then PlaceBehind(p, data)
    else RecordEnd(PlaceBehind(p, data), Remaining(p.off, data))
  }

  lemma {:induction false} RecordEndIs(crc: Checksum, p: Place, data: seq<Byte>, begin: bool)
    requires ChecksumOk(crc) && p.off <= BLOCK_SIZE
    ensures RecordEnd(p, data).off == EmitEnd(p.off, data)
    ensures Absolute(RecordEnd(p, data)) == Absolute(p) + |Emit(crc, p.off, data, begin)|
    decreases |data|, if Aligned(p.off) + HEADER_SIZE == BLOCK_SIZE then 1 else 0
  {
    assert Absolute(PlaceBehind(p, data)) == Absolute(p) + |Piece(crc, p.off, data, begin)|;
    if Remaining(p.off, data) != [] {
      RecordEndIs(crc, PlaceBehind(p, data), Remaining(p.off, data), false);
    }
  }

  /** A record that is all there is read back; one that is cut off ends the read without a report. */
  lemma {:induction false} RecordReadBack(phys: Physicals, crc: Checksum, file: seq<Byte>, p: Place,
      data: seq<Byte>, begin: bool, so: seq<Byte>)
    requires ChecksumOk(crc) && Finds(phys, crc, file)
    requires 0 <= Absolute(p) <= |file| && p.off <= BLOCK_SIZE && (begin ==> so == [])
    requires Agrees(file, Absolute(p), Emit(crc, p.off, data, begin))
    ensures RecordAt(phys, |file|, p, Collected(begin, so)) ==
              if Absolute(RecordEnd(p, data)) <= |file| then Record(so + data, RecordEnd(p, data), 0) else NoMore(0)
    decreases |data|, if Aligned(p.off) + HEADER_SIZE == BLOCK_SIZE then 1 else 0
  {
    var n, rest, next := Cut(Aligned(p.off), |data|), Remaining(p.off, data), PlaceBehind(p, data);
    if rest == [] {
      assert data[..n] == data;
      PieceReadBack(phys, crc, file, p, data, begin);
      AfterFragment(phys, |file|, p, begin, so, true, data[..n]);
    } else {
      AgreesParts(file, Absolute(p), Piece(crc, p.off, data, begin), Emit(crc, next.off, rest, false));
      PieceReadBack(phys, crc, file, p, data, begin);
      AfterFragment(phys, |file|, p, begin, so, false, data[..n]);
      RecordEndIs(crc, next, rest, false);
      if Absolute(next) <= |file| {
        RecordReadBack(phys, crc, file, next, rest, false, so + data[..n]);
        Rejoin(so, data, n);
      }
    }
  }

  lemma {:induction false} Rejoin(so: seq<Byte>, data: seq<Byte>, n: nat)
    requires n <= |data|
    ensures so + data[..n] + data[n..] == so + data
  {
  }

  // ----- Whole logs -----

  function LogFrom(crc: Checksum, off: nat, records: seq<seq<Byte>>): seq<Byte>
    requires off <= BLOCK_SIZE
    decreases |records|
  {
    if records == [] then []
    else Emit(crc, off, records[0], true) + LogFrom(crc, EmitEnd(off, records[0]), records[1..])
  }

  function LogEnd(off: nat, records: seq<seq<Byte>>): (r: nat)
    requires off <= BLOCK_SIZE
    ensures r <= BLOCK_SIZE
    decreases |records|
  {
    if records == [] then off else LogEnd(EmitEnd(off, records[0]), records[1..])
  }

  /** How many records are whole in the first `n` bytes. */
  function Whole(crc: Checksum, off: nat, records: seq<seq<Byte>>, n: nat): (k: nat)
    requires off <= BLOCK_SIZE
    ensures k <= |records|
    decreases |records|
  {
    if records == [] || |Emit(crc, off, records[0], true)| > n then 0
    else 1 + Whole(crc, EmitEnd(off, records[0]), records[1..], n - |Emit(crc, off, records[0], true)|)
  }

  /** The first record of a log, if it is whole, comes before those of the rest. */
  lemma {:induction false} FirstRecord(phys: Physicals, crc: Checksum, file: seq<Byte>, p: Place, next: Place,
      data: seq<Byte>, tail: seq<Byte>)
    requires ChecksumOk(crc) && Finds(phys, crc, file) && 0 <= Absolute(p) <= |file| && p.off <= BLOCK_SIZE
    requires Agrees(file, Absolute(p), Emit(crc, p.off, data, true) + tail) && next == RecordEnd(p, data)
    ensures next.off == EmitEnd(p.off, data) && Absolute(next) == Absolute(p) + |Emit(crc, p.off, data, true)|
    ensures Agrees(file, Absolute(next), tail)
    ensures RecordsFrom(phys, |file|, p) ==
              if Absolute(next) <= |file| then [data] + RecordsFrom(phys, |file|, next) else []
    ensures ReportsFrom(phys, |file|, p) == if Absolute(next) <= |file| then ReportsFrom(phys, |file|, next) else 0
  {
    AgreesParts(file, Absolute(p), Emit(crc, p.off, data, true), tail);
    RecordReadBack(phys, crc, file, p, data, true, []);
    RecordEndIs(crc, p, data, true);
    EmitIsLong(crc, p.off, data);
    assert [] + data == data;
  }

  /** From a file that holds a log, or only its beginning, the reader returns exactly the records that
      are whole, and reports no corruption. */
  lemma {:induction false} LogReadBack(phys: Physicals, crc: Checksum, file: seq<Byte>, p: Place,
      records: seq<seq<Byte>>)
    requires ChecksumOk(crc) && Finds(phys, crc, file) && 0 <= Absolute(p) <= |file| && p.off <= BLOCK_SIZE
    requires |file| <= Absolute(p) + |LogFrom(crc, p.off, records)|
    requires Agrees(file, Absolute(p), LogFrom(crc, p.off, records))
    ensures RecordsFrom(phys, |file|, p) == records[..Whole(crc, p.off, records, |file| - Absolute(p))]
    ensures ReportsFrom(phys, |file|, p) == 0
    decreases |records|
  {
    if records == [] {
      NothingMore(phys, crc, file, p);
    } else {
      var data, rest, next := records[0], records[1..], RecordEnd(p, records[0]);
      FirstRecord(phys, crc, file, p, next, data, LogFrom(crc, EmitEnd(p.off, data), rest));
      if Absolute(next) <= |file| {
        LogReadBack(phys, crc, file, next, rest);
        var k := Whole(crc, next.off, rest, |file| - Absolute(next));
        assert Whole(crc, p.off, records, |file| - Absolute(p)) == k + 1;
        OneMore(records, k);
      } else {
        assert Whole(crc, p.off, records, |file| - Absolute(p)) == 0;
      }
    }
  }

  lemma {:induction false} OneMore(records: seq<seq<Byte>>, k: nat)
    requires k < |records|
    ensures [records[0]] + records[1..][..k] == records[..k + 1]
  {
  }

  lemma {:induction false} NothingMore(phys: Physicals, crc: Checksum, file: seq<Byte>, p: Place)
    requires Finds(phys, crc, file) && Absolute(p) == |file|
    ensures RecordsFrom(phys, |file|, p) == [] && ReportsFrom(phys, |file|, p) == 0
  {
    assert phys(p) == PhysicalAt(crc, file, p);
  }

  lemma {:induction false} EmitIsLong(crc: Checksum, off: nat, data: seq<Byte>)
    requires ChecksumOk(crc) && off <= BLOCK_SIZE
    ensures |Emit(crc, off, data, true)| >= HEADER_SIZE
  {
  }

  // ----- Sessions of writers -----

  /** The end of a block and the beginning of the next are the same to the writer. */
  lemma {:induction false} BlockBoundary(crc: Checksum, data: seq<Byte>)
    ensures Emit(crc, BLOCK_SIZE, data, true) == Emit(crc, 0, data, true)
    ensures EmitEnd(BLOCK_SIZE, data) == EmitEnd(0, data)
  {
    assert Pad(BLOCK_SIZE) == Pad(0);
  }

  lemma {:induction false} SameEmit(crc: Checksum, a: nat, b: nat, data: seq<Byte>)
    requires a <= BLOCK_SIZE && b <= BLOCK_SIZE && a % BLOCK_SIZE == b % BLOCK_SIZE
    ensures Emit(crc, a, data, true) == Emit(crc, b, data, true) && EmitEnd(a, data) == EmitEnd(b, data)
  {
    assert a == b || {a, b} == {0, BLOCK_SIZE};
    BlockBoundary(crc, data);
  }

  lemma {:induction false} LogAppend(crc: Checksum, off: nat, records: seq<seq<Byte>>, data: seq<Byte>)
    requires off <= BLOCK_SIZE
    ensures LogFrom(crc, off, records + [data]) ==
              LogFrom(crc, off, records) + Emit(crc, LogEnd(off, records), data, true)
    ensures LogEnd(off, records + [data]) == EmitEnd(LogEnd(off, records), data)
    decreases |records|
  {
    if records != [] {
      LogAppend(crc, EmitEnd(off, records[0]), records[1..], data);
      assert (records + [data])[1..] == records[1..] + [data];
    }
  }

  function Flatten(sessions: seq<seq<seq<Byte>>>): seq<seq<Byte>> {
    if sessions == [] then [] else Flatten(sessions[..|sessions| - 1]) + sessions[|sessions| - 1]
  }

  /** The file holds the log of `records`, and `off` is where it ends in its block. */
  ghost predicate Holds(crc: Checksum, file: seq<Byte>, off: nat, records: seq<seq<Byte>>) {
    file == LogFrom(crc, 0, records) && off <= BLOCK_SIZE && off % BLOCK_SIZE == LogEnd(0, records) % BLOCK_SIZE
  }

  lemma {:induction false} HoldsOneMore(crc: Checksum, file: seq<Byte>, off: nat, records: seq<seq<Byte>>,
      data: seq<Byte>)
    requires Holds(crc, file, off, records)
    ensures Holds(crc, file + Emit(crc, off, data, true), EmitEnd(off, data), records + [data])
  {
    LogAppend(crc, 0, records, data);
    SameEmit(crc, off, LogEnd(0, records), data);
  }

  /** One session: open the file, add records, stop. */
  method WriteSession(crc: Checksum, file0: seq<Byte>, ghost so: seq<seq<Byte>>,
      records: seq<seq<Byte>>) returns (file: seq<Byte>)
    requires ChecksumOk(crc) && Holds(crc, file0, |file0| % BLOCK_SIZE, so)
    ensures Holds(crc, file, |file| % BLOCK_SIZE, so + records)
  {
    var writer := new Writer(file0);
    assert so + records[..0] == so;
    for i := 0 to |records|
      invariant writer.Valid() && fresh(writer) && Holds(crc, writer.dest, writer.blockOffset, so + records[..i])
    {
      HoldsOneMore(crc, writer.dest, writer.blockOffset, so + records[..i], records[i]);
      writer.AddRecord(crc, records[i]);
      assert so + records[..i] + [records[i]] == so + records[..i + 1];
    }
    assert records[..|records|] == records;
    file := writer.dest;
  }

  /** However often the log is reopened, it is that of all its records in one go. */
  method WriteLog(crc: Checksum, sessions: seq<seq<seq<Byte>>>) returns (file: seq<Byte>)
    requires ChecksumOk(crc)
    ensures file == LogFrom(crc, 0, Flatten(sessions))
  {
    file := [];
    for i := 0 to |sessions|
      invariant Holds(crc, file, |file| % BLOCK_SIZE, Flatten(sessions[..i]))
    {
      file := WriteSession(crc, file, Flatten(sessions[..i]), sessions[i]);
      assert sessions[..i + 1][..i] == sessions[..i];
    }
    assert sessions[..|sessions|] == sessions;
  }

  lemma {:induction false} WholeAll(crc: Checksum, off: nat, records: seq<seq<Byte>>)
    requires off <= BLOCK_SIZE
    ensures Whole(crc, off, records, |LogFrom(crc, off, records)|) == |records|
    decreases |records|
  {
    if records != [] {
      WholeAll(crc, EmitEnd(off, records[0]), records[1..]);
    }
  }

  /** The physical records a reader goes by are those of its file. */
  lemma {:induction false} ReaderFinds(crc: Checksum, file: seq<Byte>)
    ensures Finds(PhysicalsOf(crc, file), crc, file)
  {
  }

  /** A log cut off anywhere: the reader returns the records that are whole, and reports nothing. */
  lemma {:induction false} TruncatedLog(phys: Physicals, crc: Checksum, records: seq<seq<Byte>>, n: nat)
    requires ChecksumOk(crc) && n <= |LogFrom(crc, 0, records)| && Finds(phys, crc, LogFrom(crc, 0, records)[..n])
    ensures RecordsFrom(phys, n, Place(0 - BLOCK_SIZE, BLOCK_SIZE)) == records[..Whole(crc, 0, records, n)]
    ensures ReportsFrom(phys, n, Place(0 - BLOCK_SIZE, BLOCK_SIZE)) == 0
  {
    LogBoundary(crc, records, n);
    LogReadBack(phys, crc, LogFrom(crc, 0, records)[..n], Place(0 - BLOCK_SIZE, BLOCK_SIZE), records);
  }

  lemma {:induction false} LogBoundary(crc: Checksum, records: seq<seq<Byte>>, n: nat)
    ensures LogFrom(crc, BLOCK_SIZE, records) == LogFrom(crc, 0, records)
    ensures Whole(crc, BLOCK_SIZE, records, n) == Whole(crc, 0, records, n)
  {
    if records != [] {
      BlockBoundary(crc, records[0]);
    }
  }

  /** The whole log gives back all its records. */
  lemma {:induction false} WholeLog(phys: Physicals, crc: Checksum, records: seq<seq<Byte>>)
    requires ChecksumOk(crc) && Finds(phys, crc, LogFrom(crc, 0, records))
    ensures RecordsFrom(phys, |LogFrom(crc, 0, records)|, Place(0 - BLOCK_SIZE, BLOCK_SIZE)) == records
    ensures ReportsFrom(phys, |LogFrom(crc, 0, records)|, Place(0 - BLOCK_SIZE, BLOCK_SIZE)) == 0
  {
    var file := LogFrom(crc, 0, records);
    assert file[..|file|] == file && records[..|records|] == records;
    WholeAll(crc, 0, records);
    TruncatedLog(phys, crc, records, |file|);
  }

  // ----- Reading to the end -----

  lemma {:induction false} RecordAdvances(phys: Physicals, crc: Checksum, file: seq<Byte>, p: Place,
      partial: Option<seq<Byte>>)
    requires Finds(phys, crc, file) && 0 <= Absolute(p) && p.off <= BLOCK_SIZE
    ensures var r := RecordAt(phys, |file|, p, partial);
            r.Record? ==> Absolute(p) < Absolute(r.at) <= |file|
    decreases |file| - Absolute(p)
  {
    PhysAdvances(phys, crc, file, p);
    var (r, p') := phys(p);
    var action := React(r, partial);
    if action.Go? && Absolute(p) < Absolute(p') <= |file| {
      RecordAdvances(phys, crc, file, p', action.partial);
    }
  }

  /** What has been read so far, and what is still to come from `p` on. */
  ghost predicate Pending(phys: Physicals, len: nat, p: Place, records: seq<seq<Byte>>, reports: nat,
      all: seq<seq<Byte>>, total: nat)
  {
    records + RecordsFrom(phys, len, p) == all && reports + ReportsFrom(phys, len, p) == total
  }

  lemma {:induction false} ReadOn(phys: Physicals, len: nat, p: Place, r: Read, records: seq<seq<Byte>>, reports: nat,
      all: seq<seq<Byte>>, total: nat)
    requires Pending(phys, len, p, records, reports, all, total) && r == RecordAt(phys, len, p, None)
    ensures r.NoMore? ==> records == all && reports + r.reports == total
    ensures r.Record? && Absolute(p) < Absolute(r.at) <= len ==>
              Pending(phys, len, r.at, records + [r.data], reports + r.reports, all, total)
  {
    if r.Record? && Absolute(p) < Absolute(r.at) <= len {
      Regroup(records, r.data, RecordsFrom(phys, len, r.at));
    }
  }

  lemma {:induction false} Regroup(a: seq<seq<Byte>>, b: seq<Byte>, c: seq<seq<Byte>>)
    ensures a + ([b] + c) == (a + [b]) + c
  {
  }

  /** One more record, or the end. */
  method ReadNext(reader: Reader, crc: Checksum, ghost phys: Physicals, ghost at: Place,
      ghost records: seq<seq<Byte>>, ghost all: seq<seq<Byte>>, ghost total: nat)
      returns (r: Option<seq<Byte>>, ghost at': Place)
    requires reader.Valid() && ChecksumOk(crc) && at == reader.At() && Finds(phys, crc, reader.file)
    requires Pending(phys, |reader.file|, at, records, reader.reports, all, total)
    modifies reader
    ensures reader.Valid() && at' == reader.At()
    ensures r.None? ==> records == all && reader.reports == total
    ensures r.Some? ==> Absolute(at) < Absolute(at') <= |reader.file|
    ensures r.Some? ==> Pending(phys, |reader.file|, at', records + [r.value], reader.reports, all, total)
  {
    RecordAdvances(phys, crc, reader.file, at, None);
    ReadOn(phys, |reader.file|, at, RecordAt(phys, |reader.file|, at, None), records, reader.reports, all, total);
    r := reader.ReadRecord(crc, phys);
    at' := reader.At();
  }

  /** The records of a file, one ReadRecord after the other, and the corruptions reported on the way. */
  method ReadLog(crc: Checksum, file: seq<Byte>, ghost phys: Physicals)
      returns (records: seq<seq<Byte>>, reports: nat)
    requires ChecksumOk(crc) && Finds(phys, crc, file)
    ensures records == RecordsFrom(phys, |file|, Place(0 - BLOCK_SIZE, BLOCK_SIZE))
    ensures reports == ReportsFrom(phys, |file|, Place(0 - BLOCK_SIZE, BLOCK_SIZE))
  {
    var reader := new Reader(file);
    ghost var at := Place(0 - BLOCK_SIZE, BLOCK_SIZE);
    ghost var all, total := RecordsFrom(phys, |file|, at), ReportsFrom(phys, |file|, at);
    records := [];
    assert [] + all == all;
    var r;
    r, at := ReadNext(reader, crc, phys, at, records, all, total);
    while r.Some?
      invariant reader.Valid() && fresh(reader) && reader.file == file && at == reader.At()
      invariant r.None? ==> records == all && reader.reports == total
      invariant r.Some? ==> Pending(phys, |file|, at, records + [r.value], reader.reports, all, total)
      decreases r.Some?, |file| - Absolute(at)
    {
      records := records + [r.value];
      r, at := ReadNext(reader, crc, phys, at, records, all, total);
    }
    reports := reader.reports;
  }

  /** Write a log, lose everything behind byte `n`, read: exactly the whole records come back, and nothing
      is reported. */
  method WriteCutRead(crc: Checksum, sessions: seq<seq<seq<Byte>>>, n: nat)
      returns (records: seq<seq<Byte>>, reports: nat)
    requires ChecksumOk(crc) && n <= |LogFrom(crc, 0, Flatten(sessions))|
    ensures records == Flatten(sessions)[..Whole(crc, 0, Flatten(sessions), n)] && reports == 0
  {
    var file := WriteLog(crc, sessions);
    ghost var phys := PhysicalsOf(crc, file[..n]);
    ReaderFinds(crc, file[..n]);
    TruncatedLog(phys, crc, Flatten(sessions), n);
    records, reports := ReadLog(crc, file[..n], phys);
  }
}
