/**
 Reading a log that may be damaged: whatever the reader returns is in the file, fragment by fragment, with its
 checksums.
 */
module LogSoundness {
  import opened Keys
  import opened Log

  ghost predicate BytesOk(file: seq<Byte>) {
    forall i :: 0 <= i < |file| ==> file[i] < 256
  }

  /** The file holds a fragment of type `t` where the next header behind `p` can be. */
  ghost predicate FragmentAt(crc: Checksum, file: seq<Byte>, p: Place, t: Byte, payload: seq<Byte>) {
    var q := Next(p);
    var end := Absolute(q) + HEADER_SIZE + |payload|;
    && 0 <= Absolute(q) && end <= |file| && q.off + HEADER_SIZE + |payload| <= BLOCK_SIZE
    && file[Absolute(q)..end] == Fragment(crc, t, payload)
  }

  /** The place behind that fragment. */
  function After(p: Place, payload: seq<Byte>): Place {
    Place(Next(p).start, Next(p).off + HEADER_SIZE + |payload|)
  }

  // ----- One fragment -----

  lemma {:induction false} BufferHolds(crc: Checksum, buffer: seq<Byte>, eof: bool, t: Byte, payload: seq<Byte>, n: nat)
    requires ChecksumOk(crc) && HEADER_SIZE <= |buffer| && BytesOk(buffer)
    requires ParseBuffer(crc, buffer, eof) == (Got(t, payload), n)
    ensures n == HEADER_SIZE + |payload| <= |buffer| && buffer[..n] == Fragment(crc, t, payload)
  {
    var h := buffer[..HEADER_SIZE];
    assert |payload| == buffer[4] + 256 * buffer[5];
    assert h == buffer[..4] + [buffer[4], buffer[5], buffer[6]];
    assert buffer[4] < 256;
    assert h == Header(crc, t, payload);
    assert buffer[..n] == h + buffer[HEADER_SIZE..n];
  }

  /** A fragment is returned only where the file holds it, checksum and all. */
  lemma {:induction false} GotIsThere(crc: Checksum, file: seq<Byte>, p: Place, t: Byte, payload: seq<Byte>, p': Place)
    requires ChecksumOk(crc) && BytesOk(file) && PhysicalAt(crc, file, p) == (Got(t, payload), p')
    ensures FragmentAt(crc, file, p, t, payload) && p' == After(p, payload)
  {
    var q := Next(p);
    var a, end := Absolute(q), BlockEnd(file, q.start);
    var buffer := file[a..end];
    var n := ParseBuffer(crc, buffer, |file| < q.start + BLOCK_SIZE).1;
    BufferHolds(crc, buffer, |file| < q.start + BLOCK_SIZE, t, payload, n);
    Slices(file, a, end, 0, n);
    assert buffer[..n] == buffer[0..n];
  }

  // ----- Whole records -----

  /** Fragments that follow one another in the file, from `p` to `end`. */
  ghost predicate FragmentsAt(crc: Checksum, file: seq<Byte>, p: Place, fs: seq<Physical>, end: Place)
    decreases |fs|
  {
    if fs == [] then end == p
    else
      && fs[0].Got? && FragmentAt(crc, file, p, fs[0].t, fs[0].payload)
      && FragmentsAt(crc, file, After(p, fs[0].payload), fs[1..], end)
  }

  lemma {:induction false} OneFragmentMore(crc: Checksum, file: seq<Byte>, p: Place, fs: seq<Physical>, end: Place,
      f: Physical)
    requires FragmentsAt(crc, file, p, fs, end) && f.Got? && FragmentAt(crc, file, end, f.t, f.payload)
    ensures FragmentsAt(crc, file, p, fs + [f], After(end, f.payload))
    decreases |fs|
  {
    if fs == [] {
      assert (fs + [f])[1..] == [];
    } else {
      OneFragmentMore(crc, file, After(p, fs[0].payload), fs[1..], end, f);
      assert (fs + [f])[1..] == fs[1..] + [f];
    }
  }

  /** A first fragment and middle ones, with `so` as their payloads. */
  ghost predicate Begun(fs: seq<Physical>, so: seq<Byte>)
    decreases |fs|
  {
    && fs != [] && fs[|fs| - 1].Got?
    && var f := fs[|fs| - 1];
    if |fs| == 1 then f.t == FIRST_TYPE && so == f.payload
    else
      && f.t == MIDDLE_TYPE && |f.payload| <= |so| && so[|so| - |f.payload|..] == f.payload
      && Begun(fs[..|fs| - 1], so[..|so| - |f.payload|])
  }

  lemma {:induction false} BegunMore(fs: seq<Physical>, so: seq<Byte>, payload: seq<Byte>)
    requires Begun(fs, so)
    ensures Begun(fs + [Got(MIDDLE_TYPE, payload)], so + payload)
  {
    var more, f := so + payload, Got(MIDDLE_TYPE, payload);
    assert (fs + [f])[..|fs|] == fs && more[..|so|] == so && more[|so|..] == payload;
  }

  /** One full fragment, or a first, middle ones and a last, with `data` as their payloads. */
  ghost predicate Whole(fs: seq<Physical>, data: seq<Byte>) {
    || fs == [Got(FULL_TYPE, data)]
    || (&& |fs| >= 2 && fs[|fs| - 1].Got? && fs[|fs| - 1].t == LAST_TYPE
        && var last := fs[|fs| - 1].payload;
        && |last| <= |data| && data[|data| - |last|..] == last && Begun(fs[..|fs| - 1], data[..|data| - |last|]))
  }

  lemma {:induction false} LastCompletes(fs: seq<Physical>, so: seq<Byte>, payload: seq<Byte>)
    requires Begun(fs, so)
    ensures Whole(fs + [Got(LAST_TYPE, payload)], so + payload)
  {
    var data := so + payload;
    assert (fs + [Got(LAST_TYPE, payload)])[..|fs|] == fs && data[..|so|] == so && data[|so|..] == payload;
  }

  /** The file holds `data` as a record that ends at `end`. */
  ghost predicate RecordIn(crc: Checksum, file: seq<Byte>, data: seq<Byte>, end: Place) {
    exists p, fs :: FragmentsAt(crc, file, p, fs, end) && Whole(fs, data)
  }

  /** What the reader has collected before `p` is in the file. */
  ghost predicate Collected(crc: Checksum, file: seq<Byte>, p: Place, partial: Option<seq<Byte>>) {
    partial.Some? ==> exists p0, fs :: FragmentsAt(crc, file, p0, fs, p) && Begun(fs, partial.value)
  }

  lemma {:induction false} ReturnIsThere(crc: Checksum, file: seq<Byte>, p: Place, r: Physical, p': Place,
      partial: Option<seq<Byte>>)
    requires Collected(crc, file, p, partial) && React(r, partial).Return?
    requires r.Got? && FragmentAt(crc, file, p, r.t, r.payload) && p' == After(p, r.payload)
    ensures RecordIn(crc, file, React(r, partial).record, p')
  {
    if r.t == FULL_TYPE {
      OneFragmentMore(crc, file, p, [], p, r);
      assert FragmentsAt(crc, file, p, [r], p') by {
        assert [] + [r] == [r];
      }
      assert Whole([r], r.payload);
    } else {
      var p0, fs :| FragmentsAt(crc, file, p0, fs, p) && Begun(fs, partial.value);
      OneFragmentMore(crc, file, p0, fs, p, r);
      LastCompletes(fs, partial.value, r.payload);
    }
  }

  lemma {:induction false} GoIsCollected(crc: Checksum, file: seq<Byte>, p: Place, r: Physical, p': Place,
      partial: Option<seq<Byte>>)
    requires Collected(crc, file, p, partial) && React(r, partial).Go?
    requires r.Got? ==> FragmentAt(crc, file, p, r.t, r.payload) && p' == After(p, r.payload)
    ensures Collected(crc, file, p', React(r, partial).partial)
  {
    if r.Got? && r.t == FIRST_TYPE {
      OneFragmentMore(crc, file, p, [], p, r);
      assert FragmentsAt(crc, file, p, [r], p') by {
        assert [] + [r] == [r];
      }
      assert Begun([r], r.payload);
    } else if r.Got? && r.t == MIDDLE_TYPE && partial.Some? {
      var p0, fs :| FragmentsAt(crc, file, p0, fs, p) && Begun(fs, partial.value);
      OneFragmentMore(crc, file, p0, fs, p, r);
      BegunMore(fs, partial.value, r.payload);
    }
  }

  /** A record is returned only if the file holds it, in consecutive fragments. */
  lemma {:induction false} RecordIsThere(phys: Physicals, crc: Checksum, file: seq<Byte>, p: Place,
      partial: Option<seq<Byte>>)
    requires ChecksumOk(crc) && BytesOk(file) && Finds(phys, crc, file) && Collected(crc, file, p, partial)
    ensures var r := RecordAt(phys, |file|, p, partial); r.Record? ==> RecordIn(crc, file, r.data, r.at)
    decreases |file| - Absolute(p)
  {
    var (r, p') := phys(p);
    assert phys(p) == PhysicalAt(crc, file, p);
    if r.Got? {
      GotIsThere(crc, file, p, r.t, r.payload, p');
    }
    match React(r, partial)
    case Stop =>
    case Return(_, _) =>
      ReturnIsThere(crc, file, p, r, p', partial);
    case Go(partial', _) =>
      GoIsCollected(crc, file, p, r, p', partial);
      if Absolute(p) < Absolute(p') <= |file| {
        RecordIsThere(phys, crc, file, p', partial');
      }
  }

  ghost predicate SomewhereIn(crc: Checksum, file: seq<Byte>, data: seq<Byte>) {
    exists end :: RecordIn(crc, file, data, end)
  }

  /** Of any file, however damaged, the reader returns only records the file holds. */
  lemma {:induction false} RecordsAreThere(phys: Physicals, crc: Checksum, file: seq<Byte>, p: Place)
    requires ChecksumOk(crc) && BytesOk(file) && Finds(phys, crc, file)
    ensures forall data :: data in RecordsFrom(phys, |file|, p) ==> SomewhereIn(crc, file, data)
    decreases |file| - Absolute(p)
  {
    var r := RecordAt(phys, |file|, p, None);
    if r.Record? {
      RecordIsThere(phys, crc, file, p, None);
      assert SomewhereIn(crc, file, r.data);
      if Absolute(p) < Absolute(r.at) <= |file| {
        RecordsAreThere(phys, crc, file, r.at);
      }
    }
  }

  /** Reading any file to the end. */
  method ReadDamaged(crc: Checksum, file: seq<Byte>, ghost phys: Physicals)
      returns (records: seq<seq<Byte>>, reports: nat)
    requires ChecksumOk(crc) && BytesOk(file) && Finds(phys, crc, file)
    ensures forall data :: data in records ==> SomewhereIn(crc, file, data)
  {
    records, reports := ReadLog(crc, file, phys);
    RecordsAreThere(phys, crc, file, Place(0 - BLOCK_SIZE, BLOCK_SIZE));
  }
}
