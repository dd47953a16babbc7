/** What the zip writer and reader promise together, and what the checksum protects. */
module ZipRoundTrip {
  import opened Prelude
  import opened Bytes
  import opened ArchivePath
  import opened Entries
  import opened Zip
  import Crc32

  /** Inflating undoes deflating. */
  ghost predicate InflateUndoesDeflate(host: Host) {
    forall data :: host.inflate(host.deflate(data)) == Some(data)
  }

  // ----- fields of written records -----

  lemma {:induction false} CommonFields(buffer: seq<byte>, at: nat, f: Facts)
    requires At(buffer, at, Common(f)) && Fits(f, 0)
    ensures Read32(buffer, at + 4) == Some(f.crc)
    ensures Read32(buffer, at + 8) == Some(f.compressed)
    ensures Read32(buffer, at + 12) == Some(f.size)
    ensures Read16(buffer, at + 16) == Some(|f.name|)
  {
    hide Le16, Le32, At, Read16, Read32;
    AtConcat(buffer, at, Le16(f.time),
             Le16(f.date) + (Le32(f.crc) + (Le32(f.compressed) + (Le32(f.size) + Le16(|f.name|)))));
    AtConcat(buffer, at + 2, Le16(f.date), Le32(f.crc) + (Le32(f.compressed) + (Le32(f.size) + Le16(|f.name|))));
    AtConcat(buffer, at + 4, Le32(f.crc), Le32(f.compressed) + (Le32(f.size) + Le16(|f.name|)));
    AtConcat(buffer, at + 8, Le32(f.compressed), Le32(f.size) + Le16(|f.name|));
    AtConcat(buffer, at + 12, Le32(f.size), Le16(|f.name|));
    Read32At(buffer, at + 4, f.crc);
    Read32At(buffer, at + 8, f.compressed);
    Read32At(buffer, at + 12, f.size);
    Read16At(buffer, at + 16, |f.name|);
  }

  lemma {:induction false} CentralTailFields(buffer: seq<byte>, at: nat, offset: nat)
    requires At(buffer, at, CentralTail(offset)) && offset < U32
    ensures Read16(buffer, at) == Some(0) && Read16(buffer, at + 2) == Some(0)
    ensures Read32(buffer, at + 12) == Some(offset)
  {
    hide Le16, Le32, At, Read16, Read32;
    AtConcat(buffer, at, Le16(0), Le16(0) + (Le16(0) + (Le16(0) + (Le32(0) + Le32(offset)))));
    AtConcat(buffer, at + 2, Le16(0), Le16(0) + (Le16(0) + (Le32(0) + Le32(offset))));
    AtConcat(buffer, at + 4, Le16(0), Le16(0) + (Le32(0) + Le32(offset)));
    AtConcat(buffer, at + 6, Le16(0), Le32(0) + Le32(offset));
    AtConcat(buffer, at + 8, Le32(0), Le32(offset));
    Read16At(buffer, at, 0);
    Read16At(buffer, at + 2, 0);
    Read32At(buffer, at + 12, offset);
  }

  lemma {:induction false} SubarrayAt(buffer: seq<byte>, offset: nat, piece: seq<byte>)
    requires At(buffer, offset, piece)
    ensures Subarray(buffer, offset, |piece|) == piece
  {
  }

  /** A written directory record reads back field by field, and the next one follows it. */
  lemma {:induction false} ReadWrittenCentral(buffer: seq<byte>, at: nat, f: Facts, offset: nat)
    requires At(buffer, at, CentralHeader(f, offset)) && Fits(f, offset)
    ensures ReadCentral(buffer, at)
      == Ok(Central(0, DEFLATED, f.crc, f.compressed, f.size, offset, f.name, at + 46 + |f.name|))
  {
    hide Le16, Le32, At, Read16, Read32, Common, CentralTail, Subarray;
    AtConcat(buffer, at, CentralStart(), Common(f) + (CentralTail(offset) + f.name));
    AtConcat(buffer, at, Le32(CENTRAL_SIGNATURE), Le16(20) + (Le16(20) + (Le16(0) + Le16(DEFLATED))));
    AtConcat(buffer, at + 4, Le16(20), Le16(20) + (Le16(0) + Le16(DEFLATED)));
    AtConcat(buffer, at + 6, Le16(20), Le16(0) + Le16(DEFLATED));
    AtConcat(buffer, at + 8, Le16(0), Le16(DEFLATED));
    AtConcat(buffer, at + 12, Common(f), CentralTail(offset) + f.name);
    AtConcat(buffer, at + 30, CentralTail(offset), f.name);
    Read32At(buffer, at, CENTRAL_SIGNATURE);
    Read16At(buffer, at + 8, 0);
    Read16At(buffer, at + 10, DEFLATED);
    CommonFields(buffer, at + 12, f);
    CentralTailFields(buffer, at + 30, offset);
    SubarrayAt(buffer, at + 46, f.name);
  }

  lemma {:induction false} ReadWrittenLocal(buffer: seq<byte>, offset: nat, f: Facts, c: Central, path: Path)
    requires At(buffer, offset, LocalHeader(f)) && Fits(f, offset) && c.local == offset
    ensures DataStart(buffer, c, path) == Ok(offset + 30 + |f.name|)
  {
    hide Le16, Le32, At, Read16, Read32, Common;
    AtConcat(buffer, offset, LocalStart(), Common(f) + (Le16(0) + f.name));
    AtConcat(buffer, offset, Le32(LOCAL_SIGNATURE), Le16(20) + (Le16(0) + Le16(DEFLATED)));
    AtConcat(buffer, offset + 10, Common(f), Le16(0) + f.name);
    AtConcat(buffer, offset + 28, Le16(0), f.name);
    Read32At(buffer, offset, LOCAL_SIGNATURE);
    CommonFields(buffer, offset + 10, f);
    Read16At(buffer, offset + 28, 0);
  }

  // ----- the round trip -----

  /** What a zipped entry comes back as: mode and time are not read. */
  function Plain(entry: Entry): Entry
    requires Normalize(entry.path).Some?
  {
    Entry(Normalize(entry.path).value, entry.data, None, None)
  }

  function AllPlain(entries: seq<Entry>): (out: seq<Entry>)
    requires AllNormalize(entries)
    ensures |out| == |entries| && forall i :: 0 <= i < |entries| ==> out[i] == Plain(entries[i])
  {
    seq(|entries|, i requires 0 <= i < |entries| => Plain(entries[i]))
  }

  lemma {:induction false} SafeIsNotDirectoryName(path: Path)
    requires Safe(path)
    ensures !IsDirectoryName(path)
  {
    assert Split(path)[|Split(path)| - 1] in Split(path);
    if IsDirectoryName(path) {
      TrailingSlash(path);
    }
  }

  lemma {:induction false} ReadWrittenEntry(host: Host, buffer: seq<byte>, at: nat, offset: nat, entry: Entry)
    requires InflateUndoesDeflate(host) && PartsOf(host, entry, offset).Ok?
    requires At(buffer, offset, PartsOf(host, entry, offset).value.locals)
    requires At(buffer, at, PartsOf(host, entry, offset).value.central)
    ensures Normalize(entry.path).Some? && ReadCentral(buffer, at).Ok?
    ensures ReadCentral(buffer, at).value.next == at + |PartsOf(host, entry, offset).value.central|
    ensures ReadEntry(host, buffer, ReadCentral(buffer, at).value) == Ok([Plain(entry)])
  {
    hide At, Normalize, LocalHeader, CentralHeader, ReadCentral, DataStart, Crc32.Checksum, Safe, Subarray;
    var name := Normalize(entry.path).value;
    var f, packed := FactsOf(host, entry, name), host.deflate(entry.data);
    NormalizeIsSafe(entry.path);
    SafeIsFixed(name);
    SafeIsNotDirectoryName(name);
    AtConcat(buffer, offset, LocalHeader(f), packed);
    ReadWrittenCentral(buffer, at, f, offset);
    ReadWrittenLocal(buffer, offset, f, ReadCentral(buffer, at).value, name);
    SubarrayAt(buffer, offset + 30 + |name|, packed);
  }

  /** The directory pass meets every written entry in order. */
  lemma {:induction false} ReadPacked(host: Host, buffer: seq<byte>, at: nat, offset: nat, entries: seq<Entry>)
    requires InflateUndoesDeflate(host) && PackFrom(host, entries, offset).Ok?
    requires At(buffer, offset, PackFrom(host, entries, offset).value.locals)
    requires At(buffer, at, PackFrom(host, entries, offset).value.central)
    ensures AllNormalize(entries)
    ensures ReadZip(host, buffer, at, |entries|) == Ok(AllPlain(entries))
    decreases |entries|
  {
    hide At, Normalize, PartsOf, ReadCentral, ReadEntry, Plain, InflateUndoesDeflate;
    if entries != [] {
      var one := PartsOf(host, entries[0], offset).value;
      var rest := PackFrom(host, entries[1..], offset + |one.locals|).value;
      AtConcat(buffer, offset, one.locals, rest.locals);
      AtConcat(buffer, at, one.central, rest.central);
      ReadWrittenEntry(host, buffer, at, offset, entries[0]);
      ReadPacked(host, buffer, at + |one.central|, offset + |one.locals|, entries[1..]);
      assert forall i :: 0 < i < |entries| ==> entries[i] == entries[1..][i - 1];
      assert AllPlain(entries) == [Plain(entries[0])] + AllPlain(entries[1..]);
    }
  }

  lemma {:induction false} EndFields(buffer: seq<byte>, end: nat, count: nat, size: nat, offset: nat)
    requires At(buffer, end, EndRecord(count, size, offset)) && count < U16 && size < U32 && offset < U32
    ensures Read32(buffer, end) == Some(END_SIGNATURE)
    ensures Read16(buffer, end + 10) == Some(count) && Read32(buffer, end + 16) == Some(offset)
  {
    hide Le16, Le32, At, Read16, Read32;
    AtConcat(buffer, end, Le32(END_SIGNATURE),
             Le16(0) + (Le16(0) + (Le16(count) + (Le16(count) + (Le32(size) + (Le32(offset) + Le16(0)))))));
    AtConcat(buffer, end + 4, Le16(0),
             Le16(0) + (Le16(count) + (Le16(count) + (Le32(size) + (Le32(offset) + Le16(0))))));
    AtConcat(buffer, end + 6, Le16(0), Le16(count) + (Le16(count) + (Le32(size) + (Le32(offset) + Le16(0)))));
    AtConcat(buffer, end + 8, Le16(count), Le16(count) + (Le32(size) + (Le32(offset) + Le16(0))));
    AtConcat(buffer, end + 10, Le16(count), Le32(size) + (Le32(offset) + Le16(0)));
    AtConcat(buffer, end + 12, Le32(size), Le32(offset) + Le16(0));
    AtConcat(buffer, end + 16, Le32(offset), Le16(0));
    Read32At(buffer, end, END_SIGNATURE);
    Read16At(buffer, end + 10, count);
    Read32At(buffer, end + 16, offset);
  }

  lemma {:induction false} ThreeParts(x: seq<byte>, y: seq<byte>, z: seq<byte>)
    ensures At(x + y + z, 0, x) && At(x + y + z, |x|, y) && At(x + y + z, |x| + |y|, z)
  {
    var all := x + y + z;
    assert all[0..|x|] == x && all[|x|..|x| + |y|] == y && all[|x| + |y|..|x| + |y| + |z|] == z;
  }

  lemma {:induction false} UnpackAtEnd(host: Host, archive: seq<byte>, limits: Limits, count: nat, offset: nat)
    requires |archive| >= 22 && Read32(archive, |archive| - 22) == Some(END_SIGNATURE)
    requires Read16(archive, |archive| - 12) == Some(count) && Read32(archive, |archive| - 6) == Some(offset)
    requires ReadZip(host, archive, offset, count).Ok?
    ensures FindEnd(archive) == Some(|archive| - 22)
    ensures UnpackZip(host, archive, limits) == Validate(ReadZip(host, archive, offset, count).value, limits)
  {
    hide Read16, Read32, ReadZip, Validate;
  }

  /**
   * Every archive the packer produces, whatever the entries, unpacks to exactly those entries,
   * in order, under the normalised paths; any further refusal comes from the limits alone.
   */
  lemma {:induction false} ZipRoundTrip(host: Host, entries: seq<Entry>, limits: Limits)
    requires InflateUndoesDeflate(host) && PackZip(host, entries).Ok?
    ensures AllNormalize(entries)
    ensures FindEnd(PackZip(host, entries).value).Some?
    ensures UnpackZip(host, PackZip(host, entries).value, limits) == Validate(AllPlain(entries), limits)
  {
    hide PackFrom, EndRecord, ReadZip, UnpackZip, FindEnd, At, InflateUndoesDeflate, AllNormalize, Validate;
    var archive := PackZip(host, entries).value;
    var parts := PackFrom(host, entries, 0).value;
    var end := EndRecord(|entries|, |parts.central|, |parts.locals|);
    var at := |parts.locals| + |parts.central|;
    ThreeParts(parts.locals, parts.central, end);
    EndFields(archive, at, |entries|, |parts.central|, |parts.locals|);
    ReadPacked(host, archive, |parts.locals|, 0, entries);
    UnpackAtEnd(host, archive, limits, |entries|, |parts.locals|);
  }

  // ----- tampering with stored data -----

  /** Where record `index` of the directory starts, as long as the records before it are readable. */
  ghost function RecordAt(buffer: seq<byte>, offset: nat, index: nat): nat
    decreases index
  {
    if index == 0 || ReadCentral(buffer, offset).Err? then offset
    else RecordAt(buffer, ReadCentral(buffer, offset).value.next, index - 1)
  }

  /** The buffers agree from `from` on. */
  ghost predicate AgreeFrom(a: seq<byte>, b: seq<byte>, from: nat) {
    |a| == |b| && forall j :: from <= j < |a| ==> a[j] == b[j]
  }

  lemma {:induction false} ReadsAgree(a: seq<byte>, b: seq<byte>, from: nat, offset: nat, length: nat)
    requires AgreeFrom(a, b, from) && from <= offset
    ensures Read16(a, offset) == Read16(b, offset) && Read32(a, offset) == Read32(b, offset)
    ensures Subarray(a, offset, length) == Subarray(b, offset, length)
  {
  }

  lemma {:induction false} CentralsAgree(a: seq<byte>, b: seq<byte>, from: nat, offset: nat)
    requires AgreeFrom(a, b, from) && from <= offset
    ensures ReadCentral(a, offset) == ReadCentral(b, offset)
    ensures ReadCentral(a, offset).Ok? ==> ReadCentral(a, offset).value.next > offset
  {
    hide Read16, Read32, Subarray, AgreeFrom;
    ReadsAgree(a, b, from, offset, 0);
    ReadsAgree(a, b, from, offset + 8, 0);
    ReadsAgree(a, b, from, offset + 10, 0);
    ReadsAgree(a, b, from, offset + 16, 0);
    ReadsAgree(a, b, from, offset + 20, 0);
    ReadsAgree(a, b, from, offset + 24, 0);
    ReadsAgree(a, b, from, offset + 28, 0);
    ReadsAgree(a, b, from, offset + 30, 0);
    ReadsAgree(a, b, from, offset + 32, 0);
    ReadsAgree(a, b, from, offset + 42, 0);
    if Read16(a, offset + 28).Some? {
      ReadsAgree(a, b, from, offset + 46, Read16(a, offset + 28).value);
    }
  }

  /** The end record is found where it was when everything from it on is unchanged. */
  lemma {:induction false} EndsAgree(a: seq<byte>, b: seq<byte>, offset: int)
    requires |a| == |b| && offset <= |a| - 22
    requires FindEndFrom(a, offset).Some? && AgreeFrom(a, b, FindEndFrom(a, offset).value)
    ensures FindEndFrom(b, offset) == FindEndFrom(a, offset)
    decreases offset
  {
    FindEndIsLast(a, offset);
    ReadsAgree(a, b, FindEndFrom(a, offset).value, offset, 0);
    if FindEndFrom(a, offset) != Some(offset) {
      EndsAgree(a, b, offset - 1);
    }
  }

  /** A record of an uncompressed file, and the stretch of the buffer that holds its data. */
  ghost predicate IsStored(buffer: seq<byte>, c: Central, start: nat) {
    && c.compression == STORED
    && !IsDirectoryName(c.rawName)
    && Normalize(c.rawName).Some?
    && DataStart(buffer, c, Normalize(c.rawName).value) == Ok(start)
    && start + c.compressed <= |buffer|
  }

  /** `b` is `a` with some of four consecutive bytes changed, all of them in `[start, start + length)`. */
  ghost predicate ChangedWithin(a: seq<byte>, b: seq<byte>, at: nat, start: nat, length: nat) {
    && Crc32.DifferWithinFourBytes(a, b, at)
    && forall j :: 0 <= j < |a| && a[j] != b[j] ==> start <= j < start + length
  }

  lemma {:induction false} StoredDataChanges(a: seq<byte>, b: seq<byte>, at: nat, start: nat, length: nat)
    requires ChangedWithin(a, b, at, start, length) && start + length <= |a|
    ensures Crc32.Checksum(a[start..start + length]) != Crc32.Checksum(b[start..start + length])
  {
    hide Crc32.Checksum;
    var x, y := a[start..start + length], b[start..start + length];
    var window := if at < start then 0 else at - start;
    assert forall j :: 0 <= j < length ==> x[j] == a[start + j] && y[j] == b[start + j];
    var j :| 0 <= j < |a| && a[j] != b[j];
    assert x[j - start] != y[j - start];
    Crc32.ChecksumDetectsBurst(x, y, window);
  }

  /** Changing up to four consecutive bytes of a stored file makes its record unreadable. */
  lemma {:induction false} ReadEntryRejectsChange(
      host: Host, a: seq<byte>, b: seq<byte>, c: Central, start: nat, at: nat)
    requires IsStored(a, c, start) && ChangedWithin(a, b, at, start, c.compressed)
    requires ReadEntry(host, a, c).Ok?
    ensures ReadEntry(host, b, c).Err?
  {
    hide Normalize, Crc32.Checksum;
    var path := Normalize(c.rawName).value;
    assert DataStart(b, c, path) == Ok(start) by {
      assert forall j :: 0 <= j < start ==> a[j] == b[j];
    }
    StoredDataChanges(a, b, at, start, c.compressed);
  }

  lemma {:induction false} ReadZipRejectsChange(
      host: Host, a: seq<byte>, b: seq<byte>, offset: nat, count: nat, index: nat, start: nat, at: nat)
    requires index < count && ReadZip(host, a, offset, count).Ok? && AgreeFrom(a, b, offset)
    requires ReadCentral(a, RecordAt(a, offset, index)).Ok?
    requires var c := ReadCentral(a, RecordAt(a, offset, index)).value;
      IsStored(a, c, start) && ChangedWithin(a, b, at, start, c.compressed)
    ensures ReadZip(host, b, offset, count).Err?
    decreases index
  {
    hide ReadCentral, ReadEntry, IsStored, ChangedWithin;
    CentralsAgree(a, b, offset, offset);
    var c := ReadCentral(a, offset).value;
    if index == 0 {
      ReadEntryRejectsChange(host, a, b, c, start, at);
    } else {
      ReadZipRejectsChange(host, a, b, c.next, count - 1, index - 1, start, at);
    }
  }

  /**
   * If an archive unpacks, and a copy differs from it only in up to four consecutive bytes of the
   * data of one uncompressed file, before the directory and the end record, the copy is refused.
   */
  lemma {:induction false} UnpackZipRejectsChange(
      host: Host, a: seq<byte>, b: seq<byte>, limits: Limits, index: nat, start: nat, at: nat)
    requires UnpackZip(host, a, limits).Ok?
    requires var end := FindEnd(a).value;
      var count, offset := Get16(a, end + 10).value, Get32(a, end + 16).value;
      && AgreeFrom(a, b, end) && AgreeFrom(a, b, offset) && index < count
      && ReadCentral(a, RecordAt(a, offset, index)).Ok?
      && (var c := ReadCentral(a, RecordAt(a, offset, index)).value;
          IsStored(a, c, start) && ChangedWithin(a, b, at, start, c.compressed))
    ensures UnpackZip(host, b, limits).Err?
  {
    hide ReadCentral, ReadZip, IsStored, ChangedWithin, Validate, Read16, Read32, AgreeFrom, RecordAt;
    var end := FindEnd(a).value;
    SameLength(a, b, end);
    EndsAgree(a, b, |a| - 22);
    ReadsAgree(a, b, end, end + 10, 0);
    ReadsAgree(a, b, end, end + 16, 0);
    var count, offset := Get16(a, end + 10).value, Get32(a, end + 16).value;
    ReadZipRejectsChange(host, a, b, offset, count, index, start, at);
  }

  lemma {:induction false} SameLength(a: seq<byte>, b: seq<byte>, from: nat)
    requires AgreeFrom(a, b, from)
    ensures |a| == |b|
  {
  }
}
