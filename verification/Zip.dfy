/** The zip writer and reader of the archive adapters. */
module Zip {
  import opened Prelude
  import opened Bytes
  import opened ArchivePath
  import opened Entries
  import Crc32

  /** The library functions the adapters call: compression streams and the DOS clock fields. */
  datatype Host = Host(
    deflate: seq<byte> -> seq<byte>,
    inflate: seq<byte> -> Option<seq<byte>>,
    gzip: seq<byte> -> seq<byte>,
    gunzip: seq<byte> -> Option<seq<byte>>,
    dosTime: Option<nat> -> nat,
    dosDate: Option<nat> -> nat)

  const LOCAL_SIGNATURE := 0x04034b50
  const CENTRAL_SIGNATURE := 0x02014b50
  const END_SIGNATURE := 0x06054b50
  const U16 := 0x1_0000
  const U32 := 0x1_0000_0000
  const DEFLATED := 8
  const STORED := 0

  // ----- records -----

  /** What both headers of one entry record. */
  datatype Facts = Facts(name: Path, time: nat, date: nat, crc: nat, compressed: nat, size: nat)

  predicate Fits(f: Facts, offset: nat) {
    |f.name| < U16 && f.time < U16 && f.date < U16 && f.crc < U32 && f.compressed < U32 && f.size < U32 && offset < U32
  }

  /** The fields shared by both headers, from the time stamp to the name length. */
  function Common(f: Facts): (s: seq<byte>)
    ensures |s| == 18
  {
    Le16(f.time) + (Le16(f.date) + (Le32(f.crc) + (Le32(f.compressed) + (Le32(f.size) + Le16(|f.name|)))))
  }

  /** Signature, version, flags and compression method of a local header. */
  function LocalStart(): (s: seq<byte>)
    ensures |s| == 10
  {
    Le32(LOCAL_SIGNATURE) + (Le16(20) + (Le16(0) + Le16(DEFLATED)))
  }

  /** The same of a directory record, which has two version fields. */
  function CentralStart(): (s: seq<byte>)
    ensures |s| == 12
  {
    Le32(CENTRAL_SIGNATURE) + (Le16(20) + (Le16(20) + (Le16(0) + Le16(DEFLATED))))
  }

  function LocalHeader(f: Facts): (s: seq<byte>)
    ensures |s| == 30 + |f.name|
  {
    LocalStart() + (Common(f) + (Le16(0) + f.name))
  }

  /** Extra and comment lengths, disk number, attributes and the offset of the local header. */
  function CentralTail(offset: nat): (s: seq<byte>)
    ensures |s| == 16
  {
    Le16(0) + (Le16(0) + (Le16(0) + (Le16(0) + (Le32(0) + Le32(offset)))))
  }

  function CentralHeader(f: Facts, offset: nat): (s: seq<byte>)
    ensures |s| == 46 + |f.name|
  {
    CentralStart() + (Common(f) + (CentralTail(offset) + f.name))
  }

  function EndRecord(count: nat, size: nat, offset: nat): (s: seq<byte>)
    ensures |s| == 22
  {
    Le32(END_SIGNATURE)
      + (Le16(0) + (Le16(0) + (Le16(count) + (Le16(count) + (Le32(size) + (Le32(offset) + Le16(0)))))))
  }

  // ----- packing -----

  function FactsOf(host: Host, entry: Entry, name: Path): Facts {
    Facts(name, host.dosTime(entry.mtime), host.dosDate(entry.mtime), Crc32.Checksum(entry.data),
          |host.deflate(entry.data)|, |entry.data|)
  }

  datatype Parts = Parts(locals: seq<byte>, central: seq<byte>)

  function PartsOf(host: Host, entry: Entry, offset: nat): Outcome<Parts> {
    var name :- Normalized(entry.path);
    var f := FactsOf(host, entry, name);
    if !Fits(f, offset) then Err(OutOfRange)
    else Ok(Parts(LocalHeader(f) + host.deflate(entry.data), CentralHeader(f, offset)))
  }

  function PackFrom(host: Host, entries: seq<Entry>, offset: nat): Outcome<Parts>
    decreases |entries|
  {
    if entries == [] then Ok(Parts([], []))
    else
      var one :- PartsOf(host, entries[0], offset);
      var rest :- PackFrom(host, entries[1..], offset + |one.locals|);
      Ok(Parts(one.locals + rest.locals, one.central + rest.central))
  }

  function PackZip(host: Host, entries: seq<Entry>): Outcome<seq<byte>> {
    var parts :- PackFrom(host, entries, 0);
    if |entries| >= U16 || |parts.central| >= U32 || |parts.locals| >= U32 then Err(OutOfRange)
    else Ok(parts.locals + parts.central + EndRecord(|entries|, |parts.central|, |parts.locals|))
  }

  // ----- the in-place writers -----

  /** The stretch from the time stamp to the name length. */
  method WriteCommon(a: array<byte>, at: nat, f: Facts)
    requires at + 18 <= a.Length && a[at..] == Zeros(a.Length - at)
    modifies a
    ensures a[..at + 18] == old(a[..at]) + Common(f) && a[at + 18..] == Zeros(a.Length - at - 18)
  {
    hide Le16, Le32, Zeros;
    Append(a, at, Le16(f.time));
    Append(a, at + 2, Le16(f.date));
    Append(a, at + 4, Le32(f.crc));
    Append(a, at + 8, Le32(f.compressed));
    Append(a, at + 12, Le32(f.size));
    Append(a, at + 16, Le16(|f.name|));
  }

  method WriteLocalStart(a: array<byte>)
    requires a.Length >= 10 && a[0..] == Zeros(a.Length)
    modifies a
    ensures a[..10] == LocalStart() && a[10..] == Zeros(a.Length - 10)
  {
    hide Le16, Le32, Zeros;
    Append(a, 0, Le32(LOCAL_SIGNATURE));
    Append(a, 4, Le16(20));
    Append(a, 6, Le16(0));
    Append(a, 8, Le16(DEFLATED));
  }

  method WriteCentralStart(a: array<byte>)
    requires a.Length >= 12 && a[0..] == Zeros(a.Length)
    modifies a
    ensures a[..12] == CentralStart() && a[12..] == Zeros(a.Length - 12)
  {
    hide Le16, Le32, Zeros;
    Append(a, 0, Le32(CENTRAL_SIGNATURE));
    Append(a, 4, Le16(20));
    Append(a, 6, Le16(20));
    Append(a, 8, Le16(0));
    Append(a, 10, Le16(DEFLATED));
  }

  method WriteCentralFront(a: array<byte>, f: Facts)
    requires a.Length >= 30 && a[0..] == Zeros(a.Length)
    modifies a
    ensures a[..30] == CentralStart() + Common(f) && a[30..] == Zeros(a.Length - 30)
  {
    hide Zeros, Common, CentralStart;
    WriteCentralStart(a);
    WriteCommon(a, 12, f);
  }

  method WriteLocal(f: Facts) returns (header: seq<byte>)
    ensures header == LocalHeader(f)
  {
    var a := Alloc(30 + |f.name|);
    assert a[0..] == Zeros(a.Length);
    hide Le16, Zeros, Common, LocalStart;
    WriteLocalStart(a);
    WriteCommon(a, 10, f);
    Append(a, 28, Le16(0));
    Append(a, 30, f.name);
    assert a[..] == a[..30 + |f.name|];
    header := a[..];
  }

  method WriteCentralTail(a: array<byte>, at: nat, offset: nat)
    requires at + 16 <= a.Length && a[at..] == Zeros(a.Length - at)
    modifies a
    ensures a[..at + 16] == old(a[..at]) + CentralTail(offset) && a[at + 16..] == Zeros(a.Length - at - 16)
  {
    hide Le16, Le32, Zeros;
    Append(a, at, Le16(0));
    Append(a, at + 2, Le16(0));
    Append(a, at + 4, Le16(0));
    Append(a, at + 6, Le16(0));
    Append(a, at + 8, Le32(0));
    Append(a, at + 12, Le32(offset));
  }

  method WriteCentral(f: Facts, offset: nat) returns (header: seq<byte>)
    ensures header == CentralHeader(f, offset)
  {
    var a := Alloc(46 + |f.name|);
    assert a[0..] == Zeros(a.Length);
    hide Zeros, Common, CentralTail, CentralStart;
    WriteCentralFront(a, f);
    WriteCentralTail(a, 30, offset);
    Append(a, 46, f.name);
    assert a[..] == a[..46 + |f.name|];
    header := a[..];
  }

  method WriteEndStart(a: array<byte>)
    requires a.Length >= 8 && a[0..] == Zeros(a.Length)
    modifies a
    ensures a[..8] == Le32(END_SIGNATURE) + (Le16(0) + Le16(0)) && a[8..] == Zeros(a.Length - 8)
  {
    hide Le16, Le32, Zeros;
    Append(a, 0, Le32(END_SIGNATURE));
    Append(a, 4, Le16(0));
    Append(a, 6, Le16(0));
  }

  method WriteEnd(count: nat, size: nat, offset: nat) returns (record: seq<byte>)
    ensures record == EndRecord(count, size, offset)
  {
    var a := Alloc(22);
    assert a[0..] == Zeros(a.Length);
    hide Le16, Le32, Zeros;
    WriteEndStart(a);
    Append(a, 8, Le16(count));
    Append(a, 10, Le16(count));
    Append(a, 12, Le32(size));
    Append(a, 16, Le32(offset));
    Append(a, 20, Le16(0));
    assert a[..] == a[..22];
    record := a[..];
  }

  method WriteParts(host: Host, table: array<Prelude.word>, entry: Entry, offset: nat) returns (result: Outcome<Parts>)
    requires Crc32.IsTable(table)
    ensures result == PartsOf(host, entry, offset)
  {
    hide Normalize, LocalHeader, CentralHeader, Crc32.Checksum;
    var name :- Normalized(entry.path);
    var compressed := host.deflate(entry.data);
    var crc := Crc32.Compute(table, entry.data);
    Crc32.ChecksumIsReference(entry.data);
    var f := Facts(name, host.dosTime(entry.mtime), host.dosDate(entry.mtime), crc, |compressed|, |entry.data|);
    if !Fits(f, offset) {
      return Err(OutOfRange);
    }
    var local := WriteLocal(f);
    var central := WriteCentral(f, offset);
    return Ok(Parts(local + compressed, central));
  }

  function PrependParts(done: Parts, rest: Outcome<Parts>): Outcome<Parts> {
    match rest
    case Ok(more) => Ok(Parts(done.locals + more.locals, done.central + more.central))
    case Err(e) => Err(e)
  }

  lemma {:induction false} PackFromStep(host: Host, entries: seq<Entry>, i: nat, done: Parts, offset: nat)
    requires i < |entries|
    ensures PrependParts(done, PackFrom(host, entries[i..], offset)) == match PartsOf(host, entries[i], offset)
      case Err(e) => Err(e)
      case Ok(one) => PrependParts(Parts(done.locals + one.locals, done.central + one.central),
                                   PackFrom(host, entries[i + 1..], offset + |one.locals|))
  {
    hide PartsOf;
    assert entries[i..][0] == entries[i] && entries[i..][1..] == entries[i + 1..];
    var one := PartsOf(host, entries[i], offset);
    if one.Ok? {
      var rest := PackFrom(host, entries[i + 1..], offset + |one.value.locals|);
      if rest.Ok? {
        assert done.locals + (one.value.locals + rest.value.locals)
          == (done.locals + one.value.locals) + rest.value.locals;
        assert done.central + (one.value.central + rest.value.central)
          == (done.central + one.value.central) + rest.value.central;
      }
    }
  }

  /** The packing loop: headers written into fresh buffers, a running offset, one final concatenation. */
  method WriteZip(host: Host, table: array<Prelude.word>, entries: seq<Entry>) returns (result: Outcome<seq<byte>>)
    requires Crc32.IsTable(table)
    ensures result == PackZip(host, entries)
  {
    hide PartsOf, EndRecord, Crc32.IsTable;
    var done := Parts([], []);
    var offset: nat := 0;
    assert entries[0..] == entries;
    assert PackFrom(host, entries, 0) == PrependParts(done, PackFrom(host, entries[0..], 0)) by {
      if PackFrom(host, entries, 0).Ok? {
        var all := PackFrom(host, entries, 0).value;
        assert [] + all.locals == all.locals && [] + all.central == all.central;
      }
    }
    for i := 0 to |entries|
      invariant offset == |done.locals| && Crc32.IsTable(table)
      invariant PackFrom(host, entries, 0) == PrependParts(done, PackFrom(host, entries[i..], offset))
    {
      PackFromStep(host, entries, i, done, offset);
      var one :- WriteParts(host, table, entries[i], offset);
      done := Parts(done.locals + one.locals, done.central + one.central);
      offset := offset + |one.locals|;
    }
    assert entries[|entries|..] == [];
    assert done.locals + [] == done.locals && done.central + [] == done.central;
    if |entries| >= U16 || |done.central| >= U32 || offset >= U32 {
      return Err(OutOfRange);
    }
    var end := WriteEnd(|entries|, |done.central|, offset);
    return Ok(done.locals + done.central + end);
  }

  // ----- finding the end record -----

  ghost predicate IsEnd(buffer: seq<byte>, offset: int) {
    0 <= offset && Read32(buffer, offset) == Some(END_SIGNATURE)
  }

  function SearchFloor(buffer: seq<byte>): nat {
    if |buffer| >= 65_557 then |buffer| - 65_557 else 0
  }

  /** The last position with an end signature among those a trailing comment allows. */
  function FindEndFrom(buffer: seq<byte>, offset: int): (r: Option<nat>)
    requires offset <= |buffer| - 22
    decreases offset
  {
    if offset < SearchFloor(buffer) then None
    else if Read32(buffer, offset) == Some(END_SIGNATURE) then Some(offset)
    else FindEndFrom(buffer, offset - 1)
  }

  function FindEnd(buffer: seq<byte>): Option<nat> {
    FindEndFrom(buffer, |buffer| - 22)
  }

  method FindEndOfCentralDirectory(buffer: seq<byte>) returns (result: Option<nat>)
    ensures result == FindEnd(buffer)
  {
    var offset := |buffer| - 22;
    while offset >= SearchFloor(buffer)
      invariant offset <= |buffer| - 22
      invariant FindEnd(buffer) == FindEndFrom(buffer, offset)
    {
      if Read32(buffer, offset) == Some(END_SIGNATURE) {
        return Some(offset);
      }
      offset := offset - 1;
    }
    return None;
  }

  /** The search finds the last end signature in its window, and fails only when there is none. */
  lemma {:induction false} FindEndIsLast(buffer: seq<byte>, offset: int)
    requires offset <= |buffer| - 22
    ensures match FindEndFrom(buffer, offset)
      case Some(e) =>
        SearchFloor(buffer) <= e <= offset && IsEnd(buffer, e) && (forall k :: e < k <= offset ==> !IsEnd(buffer, k))
      case None => forall k :: SearchFloor(buffer) <= k <= offset ==> !IsEnd(buffer, k)
    decreases offset
  {
    if offset >= SearchFloor(buffer) && Read32(buffer, offset) != Some(END_SIGNATURE) {
      FindEndIsLast(buffer, offset - 1);
    }
  }

  // ----- unpacking -----

  function Get16(buffer: seq<byte>, offset: nat): Outcome<nat> {
    match Read16(buffer, offset)
    case Some(v) => Ok(v)
    case None => Err(OutOfRange)
  }

  function Get32(buffer: seq<byte>, offset: nat): Outcome<nat> {
    match Read32(buffer, offset)
    case Some(v) => Ok(v)
    case None => Err(OutOfRange)
  }

  /** `subarray`: both ends are cut back to the buffer. */
  function Subarray(buffer: seq<byte>, start: nat, length: nat): seq<byte> {
    if start >= |buffer| then []
    else if start + length > |buffer| then buffer[start..]
    else buffer[start..start + length]
  }

  datatype Central = Central(
    flags: nat, compression: nat, crc: nat, compressed: nat, size: nat, local: nat, rawName: Path, next: nat)

  function ReadCentral(buffer: seq<byte>, offset: nat): Outcome<Central> {
    var signature :- Get32(buffer, offset);
    if signature != CENTRAL_SIGNATURE then Err(BadCentralEntry)
    else
      var flags :- Get16(buffer, offset + 8);
      var compression :- Get16(buffer, offset + 10);
      var crc :- Get32(buffer, offset + 16);
      var compressed :- Get32(buffer, offset + 20);
      var size :- Get32(buffer, offset + 24);
      var nameLength :- Get16(buffer, offset + 28);
      var extraLength :- Get16(buffer, offset + 30);
      var commentLength :- Get16(buffer, offset + 32);
      var local :- Get32(buffer, offset + 42);
      Ok(Central(flags, compression, crc, compressed, size, local, Subarray(buffer, offset + 46, nameLength),
                 offset + 46 + nameLength + extraLength + commentLength))
  }

  predicate IsDirectoryName(rawName: Path) {
    rawName != [] && rawName[|rawName| - 1] == SLASH
  }

  /** Where the data of an entry starts, according to its local header. */
  function DataStart(buffer: seq<byte>, c: Central, path: Path): Outcome<nat> {
    var signature :- Get32(buffer, c.local);
    if signature != LOCAL_SIGNATURE then Err(BadLocalHeader(path))
    else
      var nameLength :- Get16(buffer, c.local + 26);
      var extraLength :- Get16(buffer, c.local + 28);
      Ok(c.local + 30 + nameLength + extraLength)
  }

  function Decompress(host: Host, c: Central, path: Path, compressed: seq<byte>): Outcome<seq<byte>> {
    if c.compression == STORED then Ok(compressed)
    else if c.compression == DEFLATED then
      match host.inflate(compressed)
      case Some(data) => Ok(data)
      case None => Err(CorruptStream)
    else Err(UnsupportedMethod(path))
  }

  /** The entry a directory record stands for, if any: directories are skipped. */
  function ReadEntry(host: Host, buffer: seq<byte>, c: Central): Outcome<seq<Entry>> {
    var path :- Normalized(c.rawName);
    if c.flags % 2 == 1 then Err(EncryptedEntry(path))
    else if IsDirectoryName(c.rawName) then Ok([])
    else
      var start :- DataStart(buffer, c, path);
      var data :- Decompress(host, c, path, Subarray(buffer, start, c.compressed));
      if |data| != c.size || Crc32.Checksum(data) != c.crc then Err(FailedCheck(path))
      else Ok([Entry(path, data, None, None)])
  }

  function ReadZip(host: Host, buffer: seq<byte>, offset: nat, count: nat): Outcome<seq<Entry>>
    decreases count
  {
    if count == 0 then Ok([])
    else
      var c :- ReadCentral(buffer, offset);
      var entry :- ReadEntry(host, buffer, c);
      Prepend(entry, ReadZip(host, buffer, c.next, count - 1))
  }

  function UnpackZip(host: Host, buffer: seq<byte>, limits: Limits): Outcome<seq<Entry>> {
    match FindEnd(buffer)
    case None => Err(NoEndOfCentralDirectory)
    case Some(end) =>
      var count :- Get16(buffer, end + 10);
      var offset :- Get32(buffer, end + 16);
      var entries :- ReadZip(host, buffer, offset, count);
      Validate(entries, limits)
  }

  method ReadEntryData(host: Host, table: array<Prelude.word>, buffer: seq<byte>, c: Central)
    returns (result: Outcome<seq<Entry>>)
    requires Crc32.IsTable(table)
    ensures result == ReadEntry(host, buffer, c)
  {
    hide Normalize, DataStart, Crc32.Checksum;
    var path :- Normalized(c.rawName);
    if c.flags % 2 == 1 {
      return Err(EncryptedEntry(path));
    }
    if IsDirectoryName(c.rawName) {
      return Ok([]);
    }
    var start :- DataStart(buffer, c, path);
    var data :- Decompress(host, c, path, Subarray(buffer, start, c.compressed));
    var crc := Crc32.Compute(table, data);
    Crc32.ChecksumIsReference(data);
    if |data| != c.size || crc != c.crc {
      return Err(FailedCheck(path));
    }
    return Ok([Entry(path, data, None, None)]);
  }

  method ReadZipArchive(host: Host, table: array<Prelude.word>, buffer: seq<byte>, limits: Limits)
    returns (result: Outcome<seq<Entry>>)
    requires Crc32.IsTable(table)
    ensures result == UnpackZip(host, buffer, limits)
  {
    hide ReadCentral, ReadEntry, Validate, Crc32.IsTable, FindEnd;
    var found := FindEndOfCentralDirectory(buffer);
    if found.None? {
      return Err(NoEndOfCentralDirectory);
    }
    var count :- Get16(buffer, found.value + 10);
    var directory :- Get32(buffer, found.value + 16);
    var offset := directory;
    var entries: seq<Entry> := [];
    PrependNothing(ReadZip(host, buffer, directory, count));
    for i := 0 to count
      invariant Crc32.IsTable(table)
      invariant ReadZip(host, buffer, directory, count) == Prepend(entries, ReadZip(host, buffer, offset, count - i))
    {
      var c :- ReadCentral(buffer, offset);
      var entry :- ReadEntryData(host, table, buffer, c);
      PrependTwice(entries, entry, ReadZip(host, buffer, c.next, count - i - 1));
      entries := entries + entry;
      offset := c.next;
    }
    assert entries + [] == entries;
    result := ValidateEntries(entries, limits);
  }
}
