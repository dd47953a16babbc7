/**
 * Zip files as APPNOTE.TXT lays them out (sections 4.3.7, 4.3.12 and 4.3.16), whoever wrote them, and
 * what unpacking makes of them.
 */
module ZipLayout {
  import opened Prelude
  import opened Bytes
  import opened ArchivePath
  import opened Entries
  import opened Zip
  import Crc32

  // ----- the layout -----

  /** What a local header and a directory record have in common. */
  datatype Fields = Fields(
    needed: nat, flags: nat, compression: nat, time: nat, date: nat, crc: nat, compressed: nat, size: nat)

  datatype Local = Local(fields: Fields, name: seq<byte>, extra: seq<byte>, data: seq<byte>)

  /** A directory record, and what lies at its offset: a local header with its data, or something else. */
  datatype Member = Member(
    madeBy: nat, fields: Fields, name: Path, extra: seq<byte>, comment: seq<byte>,
    disk: nat, internal: nat, external: nat, offset: nat, local: Option<Local>)

  /** The end record; `count` is the number of records it announces. */
  datatype End = End(
    disk: nat, directoryDisk: nat, here: nat, count: nat, size: nat, offset: nat, comment: seq<byte>)

  const MAX16 := 0xffff
  const MAX32 := 0xffff_ffff

  function FieldBytes(f: Fields): (s: seq<byte>)
    ensures |s| == 22
  {
    Le16(f.needed) + (Le16(f.flags) + (Le16(f.compression) + (Le16(f.time) + (Le16(f.date)
    + (Le32(f.crc) + (Le32(f.compressed) + Le32(f.size)))))))
  }

  function LocalBytes(l: Local): (s: seq<byte>)
    ensures |s| == 30 + |l.name| + |l.extra| + |l.data|
  {
    [0x50, 0x4b, 3, 4] + (FieldBytes(l.fields) + (Le16(|l.name|) + (Le16(|l.extra|) + (l.name + (l.extra + l.data)))))
  }

  function RecordBytes(m: Member): (s: seq<byte>)
    ensures |s| == 46 + |m.name| + |m.extra| + |m.comment|
  {
    [0x50, 0x4b, 1, 2] + (Le16(m.madeBy) + (FieldBytes(m.fields) + (RecordTail(m)
    + (m.name + (m.extra + m.comment)))))
  }

  /** From the name length to the offset of the local header. */
  function RecordTail(m: Member): (s: seq<byte>)
    ensures |s| == 18
  {
    Le16(|m.name|) + (Le16(|m.extra|) + (Le16(|m.comment|) + (Le16(m.disk) + (Le16(m.internal)
    + (Le32(m.external) + Le32(m.offset))))))
  }

  function EndBytes(e: End): (s: seq<byte>)
    ensures |s| == 22 + |e.comment|
  {
    [0x50, 0x4b, 5, 6] + (Le16(e.disk) + (Le16(e.directoryDisk) + (Le16(e.here) + (Le16(e.count)
    + (Le32(e.size) + (Le32(e.offset) + (Le16(|e.comment|) + e.comment)))))))
  }

  predicate FieldsFit(f: Fields) {
    && f.needed <= MAX16 && f.flags <= MAX16 && f.compression <= MAX16 && f.time <= MAX16 && f.date <= MAX16
    && f.crc <= MAX32 && f.compressed <= MAX32 && f.size <= MAX32
  }

  predicate MemberFits(m: Member) {
    && FieldsFit(m.fields) && |m.name| <= MAX16 && |m.extra| <= MAX16 && |m.comment| <= MAX16
    && m.offset <= MAX32
    && (m.local.Some? ==> FieldsFit(m.local.value.fields) && |m.local.value.name| <= MAX16
                          && |m.local.value.extra| <= MAX16)
  }

  predicate EndFits(e: End) {
    e.count <= MAX16 && e.offset <= MAX32 && |e.comment| <= MAX16
  }

  /** The local header of a member lies where its record says, or nothing like one does. */
  ghost predicate LocalAt(buffer: seq<byte>, m: Member) {
    match m.local
    case Some(l) => At(buffer, m.offset, LocalBytes(l)) && |l.data| == m.fields.compressed
    case None => m.offset + 4 <= |buffer| && !At(buffer, m.offset, [0x50, 0x4b, 3, 4])
  }

  /** Directory records one behind the other. */
  ghost predicate RecordsAt(buffer: seq<byte>, at: nat, members: seq<Member>)
    decreases |members|
  {
    members == [] || (At(buffer, at, RecordBytes(members[0]))
                      && RecordsAt(buffer, at + |RecordBytes(members[0])|, members[1..]))
  }

  function RecordsLength(members: seq<Member>): nat {
    if members == [] then 0 else |RecordBytes(members[0])| + RecordsLength(members[1..])
  }

  ghost predicate MembersAt(buffer: seq<byte>, members: seq<Member>) {
    forall i :: 0 <= i < |members| ==> MemberFits(members[i]) && LocalAt(buffer, members[i])
  }

  /** The end record closes the buffer, and its comment does not look like another one. */
  ghost predicate EndAt(buffer: seq<byte>, at: nat, e: End) {
    && EndFits(e) && At(buffer, at, EndBytes(e)) && at + |EndBytes(e)| == |buffer|
    && forall k :: at < k <= |buffer| - 22 ==> !At(buffer, k, [0x50, 0x4b, 5, 6])
  }

  /** Fewer records than the end record announces are followed by something that is no record. */
  ghost predicate EndsShort(buffer: seq<byte>, at: nat, e: End, members: seq<Member>) {
    |members| <= e.count
    && (|members| < e.count ==> at + 4 <= |buffer| && !At(buffer, at, [0x50, 0x4b, 1, 2]))
  }

  /** Local headers and data may lie anywhere, in any order, with anything between them. */
  ghost predicate LaidOut(buffer: seq<byte>, members: seq<Member>, end: nat, e: End) {
    && EndAt(buffer, end, e) && RecordsAt(buffer, e.offset, members) && MembersAt(buffer, members)
    && EndsShort(buffer, e.offset + RecordsLength(members), e, members)
  }

  // ----- what the members stand for -----

  predicate IsDirectory(m: Member) {
    m.name != [] && m.name[|m.name| - 1] == SLASH
  }

  predicate Encrypted(m: Member) {
    m.fields.flags % 2 == 1
  }

  /** Method 0 stores, method 8 deflates. */
  function Content(host: Host, m: Member): Option<seq<byte>>
    requires m.local.Some?
  {
    if m.fields.compression == 0 then Some(m.local.value.data)
    else if m.fields.compression == 8 then host.inflate(m.local.value.data)
    else None
  }

  /** Why an archive with this member is refused, if it is; a directory is only looked at by name and flags. */
  function Refusal(host: Host, m: Member): Option<ArchiveError> {
    match Normalize(m.name)
    case None => Some(UnsafePath(m.name))
    case Some(path) =>
      if Encrypted(m) then Some(EncryptedEntry(path))
      else if IsDirectory(m) then None
      else if m.local.None? then Some(BadLocalHeader(path))
      else
        match Content(host, m)
        case None => Some(if m.fields.compression == 8 then CorruptStream else UnsupportedMethod(path))
        case Some(data) =>
          if |data| == m.fields.size && Crc32.Checksum(data) == m.fields.crc then None else Some(FailedCheck(path))
  }

  /** The file a member stands for, if any. */
  function FileOf(host: Host, m: Member): seq<Entry>
    requires Refusal(host, m).None?
  {
    if IsDirectory(m) then [] else [Entry(Normalize(m.name).value, Content(host, m).value, None, None)]
  }

  predicate NoneRefused(host: Host, members: seq<Member>) {
    forall i :: 0 <= i < |members| ==> Refusal(host, members[i]).None?
  }

  /** The files of an archive, in the order of its directory. */
  function FilesOf(host: Host, members: seq<Member>): seq<Entry>
    requires NoneRefused(host, members)
  {
    if members == [] then []
    else
      assert Refusal(host, members[0]).None?;
      FileOf(host, members[0]) + FilesOf(host, members[1..])
  }

  /** The first refusal among the members, and otherwise that of a directory with records missing. */
  function FirstRefusal(host: Host, members: seq<Member>, missing: bool): (r: Option<ArchiveError>)
    ensures r.None? ==> NoneRefused(host, members)
  {
    if members == [] then if missing then Some(BadCentralEntry) else None
    else
      match Refusal(host, members[0])
      case Some(e) => Some(e)
      case None =>
        var rest := FirstRefusal(host, members[1..], missing);
        assert rest.None? ==> forall i :: 0 < i < |members| ==> members[i] == members[1..][i - 1];
        rest
  }

  // ----- reading the layout -----

  lemma {:induction false} Signatures()
    ensures Le32(LOCAL_SIGNATURE) == [0x50, 0x4b, 3, 4]
    ensures Le32(CENTRAL_SIGNATURE) == [0x50, 0x4b, 1, 2]
    ensures Le32(END_SIGNATURE) == [0x50, 0x4b, 5, 6]
  {
  }

  /** Reading a signature is finding its bytes. */
  lemma {:induction false} ReadsSignature(buffer: seq<byte>, at: nat, signature: nat)
    requires signature < 0x1_0000_0000
    ensures Read32(buffer, at) == Some(signature) <==> At(buffer, at, Le32(signature))
  {
    if At(buffer, at, Le32(signature)) {
      Read32At(buffer, at, signature);
    }
    if Read32(buffer, at) == Some(signature) {
      var z := buffer[at..at + 4];
      DigitsOf(z[0], z[1], z[2], z[3]);
    }
  }

  lemma {:induction false} DigitsOf(b0: nat, b1: nat, b2: nat, b3: nat)
    requires b0 < 256 && b1 < 256 && b2 < 256 && b3 < 256
    ensures Le32(b0 + 256 * b1 + 65536 * b2 + 0x100_0000 * b3) == [b0, b1, b2, b3]
  {
    var value := b0 + 256 * b1 + 65536 * b2 + 0x100_0000 * b3;
    assert value / 256 == b1 + 256 * b2 + 65536 * b3;
    assert value / 65536 == b2 + 256 * b3;
    assert value / 0x100_0000 == b3;
  }

  lemma {:induction false} ReadFields(buffer: seq<byte>, at: nat, f: Fields)
    requires At(buffer, at, FieldBytes(f)) && FieldsFit(f)
    ensures Read16(buffer, at + 2) == Some(f.flags) && Read16(buffer, at + 4) == Some(f.compression)
    ensures Read32(buffer, at + 10) == Some(f.crc) && Read32(buffer, at + 14) == Some(f.compressed)
    ensures Read32(buffer, at + 18) == Some(f.size)
  {
    hide Le16, Le32, At, Read16, Read32;
    var numbers := Le32(f.crc) + (Le32(f.compressed) + Le32(f.size));
    AtConcat(buffer, at, Le16(f.needed),
             Le16(f.flags) + (Le16(f.compression) + (Le16(f.time) + (Le16(f.date) + numbers))));
    AtConcat(buffer, at + 2, Le16(f.flags), Le16(f.compression) + (Le16(f.time) + (Le16(f.date) + numbers)));
    AtConcat(buffer, at + 4, Le16(f.compression), Le16(f.time) + (Le16(f.date) + numbers));
    AtConcat(buffer, at + 6, Le16(f.time), Le16(f.date) + numbers);
    AtConcat(buffer, at + 8, Le16(f.date), numbers);
    AtConcat(buffer, at + 10, Le32(f.crc), Le32(f.compressed) + Le32(f.size));
    AtConcat(buffer, at + 14, Le32(f.compressed), Le32(f.size));
    Read16At(buffer, at + 2, f.flags);
    Read16At(buffer, at + 4, f.compression);
    Read32At(buffer, at + 10, f.crc);
    Read32At(buffer, at + 14, f.compressed);
    Read32At(buffer, at + 18, f.size);
  }

  lemma {:induction false} ReadTail(buffer: seq<byte>, at: nat, m: Member)
    requires At(buffer, at, RecordTail(m)) && MemberFits(m)
    ensures Read16(buffer, at) == Some(|m.name|) && Read16(buffer, at + 2) == Some(|m.extra|)
    ensures Read16(buffer, at + 4) == Some(|m.comment|) && Read32(buffer, at + 14) == Some(m.offset)
  {
    hide Le16, Le32, At, Read16, Read32;
    var last := Le16(m.disk) + (Le16(m.internal) + (Le32(m.external) + Le32(m.offset)));
    AtConcat(buffer, at, Le16(|m.name|), Le16(|m.extra|) + (Le16(|m.comment|) + last));
    AtConcat(buffer, at + 2, Le16(|m.extra|), Le16(|m.comment|) + last);
    AtConcat(buffer, at + 4, Le16(|m.comment|), last);
    AtConcat(buffer, at + 6, Le16(m.disk), Le16(m.internal) + (Le32(m.external) + Le32(m.offset)));
    AtConcat(buffer, at + 8, Le16(m.internal), Le32(m.external) + Le32(m.offset));
    AtConcat(buffer, at + 10, Le32(m.external), Le32(m.offset));
    Read16At(buffer, at, |m.name|);
    Read16At(buffer, at + 2, |m.extra|);
    Read16At(buffer, at + 4, |m.comment|);
    Read32At(buffer, at + 14, m.offset);
  }

  lemma {:induction false} ReadRecord(buffer: seq<byte>, at: nat, m: Member)
    requires At(buffer, at, RecordBytes(m)) && MemberFits(m)
    ensures ReadCentral(buffer, at) == Ok(Central(
      m.fields.flags, m.fields.compression, m.fields.crc, m.fields.compressed, m.fields.size, m.offset, m.name,
      at + |RecordBytes(m)|))
  {
    hide Le16, Le32, At, Read16, Read32, FieldBytes, RecordTail, Subarray;
    Signatures();
    var strings := m.name + (m.extra + m.comment);
    AtConcat(buffer, at, Le32(CENTRAL_SIGNATURE),
             Le16(m.madeBy) + (FieldBytes(m.fields) + (RecordTail(m) + strings)));
    AtConcat(buffer, at + 4, Le16(m.madeBy), FieldBytes(m.fields) + (RecordTail(m) + strings));
    AtConcat(buffer, at + 6, FieldBytes(m.fields), RecordTail(m) + strings);
    AtConcat(buffer, at + 28, RecordTail(m), strings);
    AtConcat(buffer, at + 46, m.name, m.extra + m.comment);
    Read32At(buffer, at, CENTRAL_SIGNATURE);
    ReadFields(buffer, at + 6, m.fields);
    ReadTail(buffer, at + 28, m);
    TakesPiece(buffer, at + 46, m.name);
  }

  lemma {:induction false} TakesPiece(buffer: seq<byte>, at: nat, piece: seq<byte>)
    requires At(buffer, at, piece)
    ensures Subarray(buffer, at, |piece|) == piece
  {
  }

  lemma {:induction false} ReadLocal(buffer: seq<byte>, m: Member, c: Central, path: Path)
    requires m.local.Some? && LocalAt(buffer, m) && MemberFits(m) && c.local == m.offset
    ensures var l := m.local.value;
      var start := m.offset + 30 + |l.name| + |l.extra|;
      DataStart(buffer, c, path) == Ok(start) && Subarray(buffer, start, m.fields.compressed) == l.data
  {
    hide Le16, Le32, At, Read16, Read32, FieldBytes, Subarray;
    Signatures();
    var l, at := m.local.value, m.offset;
    var strings := l.name + (l.extra + l.data);
    AtConcat(buffer, at, Le32(LOCAL_SIGNATURE),
             FieldBytes(l.fields) + (Le16(|l.name|) + (Le16(|l.extra|) + strings)));
    AtConcat(buffer, at + 4, FieldBytes(l.fields), Le16(|l.name|) + (Le16(|l.extra|) + strings));
    AtConcat(buffer, at + 26, Le16(|l.name|), Le16(|l.extra|) + strings);
    AtConcat(buffer, at + 28, Le16(|l.extra|), strings);
    AtConcat(buffer, at + 30, l.name, l.extra + l.data);
    AtConcat(buffer, at + 30 + |l.name|, l.extra, l.data);
    Read32At(buffer, at, LOCAL_SIGNATURE);
    Read16At(buffer, at + 26, |l.name|);
    Read16At(buffer, at + 28, |l.extra|);
    TakesPiece(buffer, at + 30 + |l.name| + |l.extra|, l.data);
  }

  lemma {:induction false} NoLocal(buffer: seq<byte>, m: Member, c: Central, path: Path)
    requires m.local.None? && LocalAt(buffer, m) && c.local == m.offset
    ensures DataStart(buffer, c, path) == Err(BadLocalHeader(path))
  {
    hide At, Le32;
    Signatures();
    ReadsSignature(buffer, m.offset, LOCAL_SIGNATURE);
  }

  lemma {:induction false} ReadMember(host: Host, buffer: seq<byte>, at: nat, m: Member)
    requires At(buffer, at, RecordBytes(m)) && MemberFits(m) && LocalAt(buffer, m)
    ensures ReadCentral(buffer, at).Ok? && ReadCentral(buffer, at).value.next == at + |RecordBytes(m)|
    ensures ReadEntry(host, buffer, ReadCentral(buffer, at).value) == match Refusal(host, m)
      case Some(e) => Err(e)
      case None => Ok(FileOf(host, m))
  {
    hide At, Normalize, RecordBytes, LocalAt, MemberFits, ReadCentral, DataStart, Crc32.Checksum, Subarray;
    ReadRecord(buffer, at, m);
    var c := ReadCentral(buffer, at).value;
    if Normalize(m.name).Some? && !IsDirectory(m) {
      if m.local.Some? {
        ReadLocal(buffer, m, c, Normalize(m.name).value);
      } else {
        NoLocal(buffer, m, c, Normalize(m.name).value);
      }
    }
  }

  lemma {:induction false} NoRecord(buffer: seq<byte>, at: nat)
    requires at + 4 <= |buffer| && !At(buffer, at, [0x50, 0x4b, 1, 2])
    ensures ReadCentral(buffer, at) == Err(BadCentralEntry)
  {
    hide At, Le32;
    Signatures();
    ReadsSignature(buffer, at, CENTRAL_SIGNATURE);
  }

  lemma {:induction false} MembersTail(host: Host, buffer: seq<byte>, members: seq<Member>)
    requires members != [] && MembersAt(buffer, members)
    ensures MemberFits(members[0]) && LocalAt(buffer, members[0]) && MembersAt(buffer, members[1..])
  {
    hide MemberFits, LocalAt;
  }

  /** The directory pass over a layout meets its members in order. */
  lemma {:induction false} ReadMembers(host: Host, buffer: seq<byte>, at: nat, members: seq<Member>, count: nat)
    requires RecordsAt(buffer, at, members) && MembersAt(buffer, members) && |members| <= count
    requires |members| < count ==>
      at + RecordsLength(members) + 4 <= |buffer| && !At(buffer, at + RecordsLength(members), [0x50, 0x4b, 1, 2])
    ensures ReadZip(host, buffer, at, count) == match FirstRefusal(host, members, |members| < count)
      case Some(e) => Err(e)
      case None => Ok(FilesOf(host, members))
    decreases |members|
  {
    hide At, Refusal, RecordBytes, ReadCentral, ReadEntry, MemberFits, LocalAt, FileOf;
    if members == [] {
      if count > 0 {
        NoRecord(buffer, at);
      }
    } else {
      MembersTail(host, buffer, members);
      ReadMember(host, buffer, at, members[0]);
      ReadMembers(host, buffer, at + |RecordBytes(members[0])|, members[1..], count - 1);
    }
  }

  lemma {:induction false} ReadEnd(buffer: seq<byte>, at: nat, e: End)
    requires At(buffer, at, EndBytes(e)) && EndFits(e)
    ensures Read32(buffer, at) == Some(END_SIGNATURE)
    ensures Read16(buffer, at + 10) == Some(e.count) && Read32(buffer, at + 16) == Some(e.offset)
  {
    hide Le16, Le32, At, Read16, Read32;
    Signatures();
    var last := Le32(e.size) + (Le32(e.offset) + (Le16(|e.comment|) + e.comment));
    AtConcat(buffer, at, Le32(END_SIGNATURE),
             Le16(e.disk) + (Le16(e.directoryDisk) + (Le16(e.here) + (Le16(e.count) + last))));
    AtConcat(buffer, at + 4, Le16(e.disk), Le16(e.directoryDisk) + (Le16(e.here) + (Le16(e.count) + last)));
    AtConcat(buffer, at + 6, Le16(e.directoryDisk), Le16(e.here) + (Le16(e.count) + last));
    AtConcat(buffer, at + 8, Le16(e.here), Le16(e.count) + last);
    AtConcat(buffer, at + 10, Le16(e.count), last);
    AtConcat(buffer, at + 12, Le32(e.size), Le32(e.offset) + (Le16(|e.comment|) + e.comment));
    AtConcat(buffer, at + 16, Le32(e.offset), Le16(|e.comment|) + e.comment);
    Read32At(buffer, at, END_SIGNATURE);
    Read16At(buffer, at + 10, e.count);
    Read32At(buffer, at + 16, e.offset);
  }

  /** The end record is the last one in the buffer, and near enough to its end to be found. */
  lemma {:induction false} FindsEnd(buffer: seq<byte>, at: nat, e: End)
    requires EndAt(buffer, at, e)
    ensures FindEnd(buffer) == Some(at)
  {
    ReadEnd(buffer, at, e);
    hide At, Le32, Read16, Read32, FindEndFrom;
    Signatures();
    FindEndIsLast(buffer, |buffer| - 22);
    forall k | at < k <= |buffer| - 22
      ensures !IsEnd(buffer, k)
    {
      ReadsSignature(buffer, k, END_SIGNATURE);
    }
    assert IsEnd(buffer, at);
  }

  // ----- what unpacking makes of a layout -----

  /**
   * Any buffer laid out as a zip file unpacks to validating exactly its files, in the order of the
   * directory, and is refused for its first unreadable member otherwise.
   */
  lemma {:induction false} UnpacksLayout(
      host: Host, buffer: seq<byte>, members: seq<Member>, end: nat, e: End, limits: Limits)
    requires LaidOut(buffer, members, end, e)
    ensures UnpackZip(host, buffer, limits) == match FirstRefusal(host, members, |members| < e.count)
      case Some(error) => Err(error)
      case None => Validate(FilesOf(host, members), limits)
  {
    hide At, EndBytes, Read16, Read32, FindEnd, ReadZip, Validate, FirstRefusal, FilesOf, RecordsAt, MembersAt;
    FindsEnd(buffer, end, e);
    ReadEnd(buffer, end, e);
    ReadMembers(host, buffer, e.offset, members, e.count);
    hide LaidOut, EndAt, RecordsLength;
  }

  /** So it unpacks exactly if no member is refused, no record is missing, and its files are acceptable. */
  lemma {:induction false} UnpacksExactly(
      host: Host, buffer: seq<byte>, members: seq<Member>, end: nat, e: End, limits: Limits)
    requires LaidOut(buffer, members, end, e)
    ensures UnpackZip(host, buffer, limits).Ok?
       <==> NoneRefused(host, members) && |members| == e.count && Acceptable(FilesOf(host, members), limits)
  {
    UnpacksLayout(host, buffer, members, end, e, limits);
    RefusedExactly(host, members, |members| < e.count);
    assert |members| <= e.count;
    hide LaidOut, UnpackZip, FirstRefusal, NoneRefused, FilesOf, Acceptable, Validate;
    if NoneRefused(host, members) {
      ValidateMeaning(FilesOf(host, members), limits);
    }
  }

  lemma {:induction false} RefusedExactly(host: Host, members: seq<Member>, missing: bool)
    ensures FirstRefusal(host, members, missing).None? <==> NoneRefused(host, members) && !missing
  {
    hide Refusal;
    if members != [] {
      RefusedExactly(host, members[1..], missing);
      assert forall i :: 0 < i < |members| ==> members[i] == members[1..][i - 1];
    }
  }

  /** A buffer without an end record in its last 65,557 bytes is refused for that. */
  lemma {:induction false} NoEndIsRefused(host: Host, buffer: seq<byte>, limits: Limits)
    requires forall k: nat :: |buffer| - 65_557 <= k <= |buffer| - 22 ==> !At(buffer, k, [0x50, 0x4b, 5, 6])
    ensures UnpackZip(host, buffer, limits) == Err(NoEndOfCentralDirectory)
  {
    hide At, Le32, Read32, FindEndFrom, ReadZip, Validate;
    Signatures();
    FindEndIsLast(buffer, |buffer| - 22);
    if FindEnd(buffer).Some? {
      ReadsSignature(buffer, FindEnd(buffer).value, END_SIGNATURE);
    }
  }

  // ----- what packing lays out -----

  /** The member an entry becomes: deflated, under its normalised path, version 2.0 and no options. */
  function MemberOf(host: Host, entry: Entry, offset: nat): Member
    requires Normalize(entry.path).Some?
  {
    var name, packed := Normalize(entry.path).value, host.deflate(entry.data);
    var fields := Fields(20, 0, 8, host.dosTime(entry.mtime), host.dosDate(entry.mtime), Crc32.Checksum(entry.data),
                         |packed|, |entry.data|);
    Member(20, fields, name, [], [], 0, 0, 0, offset, Some(Local(fields, name, [], packed)))
  }

  function MembersOf(host: Host, entries: seq<Entry>, offset: nat): (ms: seq<Member>)
    requires AllNormalize(entries)
    ensures |ms| == |entries| && forall i :: 0 <= i < |ms| ==> ms[i].local.Some?
    decreases |entries|
  {
    if entries == [] then []
    else
      assert forall i :: 0 < i < |entries| ==> entries[i] == entries[1..][i - 1];
      var m := MemberOf(host, entries[0], offset);
      [m] + MembersOf(host, entries[1..], offset + |LocalBytes(m.local.value)|)
  }

  function AllLocals(members: seq<Member>): seq<byte>
    requires forall i :: 0 <= i < |members| ==> members[i].local.Some?
  {
    if members == [] then []
    else
      assert members[0].local.Some?;
      LocalBytes(members[0].local.value) + AllLocals(members[1..])
  }

  function AllRecords(members: seq<Member>): seq<byte> {
    if members == [] then [] else RecordBytes(members[0]) + AllRecords(members[1..])
  }

  lemma {:induction false} Join(x: seq<byte>, y: seq<byte>, z: seq<byte>)
    ensures (x + y) + z == x + (y + z)
  {
  }

  lemma {:induction false} PackedFields(f: Facts)
    ensures var fields := Fields(20, 0, 8, f.time, f.date, f.crc, f.compressed, f.size);
      Le16(20) + (Le16(0) + Le16(DEFLATED)) + Common(f) == FieldBytes(fields) + Le16(|f.name|)
  {
    hide Le16, Le32;
    var a, b, c, t, d := Le16(20), Le16(0), Le16(8), Le16(f.time), Le16(f.date);
    var x, y, z, n := Le32(f.crc), Le32(f.compressed), Le32(f.size), Le16(|f.name|);
    Join(a, b + c, Common(f));
    Join(b, c, Common(f));
    Join(a, b + (c + (t + (d + (x + (y + z))))), n);
    Join(b, c + (t + (d + (x + (y + z)))), n);
    Join(c, t + (d + (x + (y + z))), n);
    Join(t, d + (x + (y + z)), n);
    Join(d, x + (y + z), n);
    Join(x, y + z, n);
    Join(y, z, n);
  }

  lemma {:induction false} PackedLocal(f: Facts, data: seq<byte>)
    ensures var fields := Fields(20, 0, 8, f.time, f.date, f.crc, f.compressed, f.size);
      LocalHeader(f) + data == LocalBytes(Local(fields, f.name, [], data))
  {
    PackedFields(f);
    Signatures();
    hide Le16, Le32, FieldBytes, Common;
    var fields := Fields(20, 0, 8, f.time, f.date, f.crc, f.compressed, f.size);
    var start, n, o, signature := Le16(20) + (Le16(0) + Le16(DEFLATED)), Le16(|f.name|), Le16(0), Le32(LOCAL_SIGNATURE);
    Join(signature, start, Common(f) + (o + f.name));
    Join(start, Common(f), o + f.name);
    Join(FieldBytes(fields), n, o + f.name);
    Join(signature, FieldBytes(fields) + (n + (o + f.name)), data);
    Join(FieldBytes(fields), n + (o + f.name), data);
    Join(n, o + f.name, data);
    Join(o, f.name, data);
    assert [] + data == data;
  }

  lemma {:induction false} PackedRecord(f: Facts, offset: nat, local: Option<Local>)
    ensures var fields := Fields(20, 0, 8, f.time, f.date, f.crc, f.compressed, f.size);
      CentralHeader(f, offset) == RecordBytes(Member(20, fields, f.name, [], [], 0, 0, 0, offset, local))
  {
    PackedFields(f);
    Signatures();
    var m := Member(20, Fields(20, 0, 8, f.time, f.date, f.crc, f.compressed, f.size), f.name, [], [], 0, 0, 0, offset,
                    local);
    assert RecordTail(m) == Le16(|f.name|) + CentralTail(offset) by {
      hide Le16, Le32;
    }
    hide Le16, Le32, FieldBytes, Common, CentralTail, RecordTail;
    var start, signature := Le16(20) + (Le16(0) + Le16(DEFLATED)), Le32(CENTRAL_SIGNATURE);
    var tail := CentralTail(offset) + f.name;
    Join(signature, Le16(20) + start, Common(f) + tail);
    Join(Le16(20), start, Common(f) + tail);
    Join(start, Common(f), tail);
    Join(FieldBytes(m.fields), Le16(|f.name|), tail);
    Join(Le16(|f.name|), CentralTail(offset), f.name);
    assert f.name + ([] + []) == f.name;
  }

  lemma {:induction false} PackedParts(host: Host, entry: Entry, offset: nat)
    requires PartsOf(host, entry, offset).Ok?
    ensures Normalize(entry.path).Some?
    ensures var m, parts := MemberOf(host, entry, offset), PartsOf(host, entry, offset).value;
      parts.locals == LocalBytes(m.local.value) && parts.central == RecordBytes(m)
  {
    hide Normalize, LocalHeader, CentralHeader, LocalBytes, RecordBytes, Crc32.Checksum;
    var m := MemberOf(host, entry, offset);
    var f := FactsOf(host, entry, m.name);
    PackedLocal(f, host.deflate(entry.data));
    PackedRecord(f, offset, m.local);
  }

  lemma {:induction false} PackedFrom(host: Host, entries: seq<Entry>, offset: nat)
    requires PackFrom(host, entries, offset).Ok?
    ensures AllNormalize(entries)
    ensures var ms, parts := MembersOf(host, entries, offset), PackFrom(host, entries, offset).value;
      parts.locals == AllLocals(ms) && parts.central == AllRecords(ms)
    decreases |entries|
  {
    hide Normalize, PartsOf, MemberOf, LocalBytes, RecordBytes;
    if entries != [] {
      PackedParts(host, entries[0], offset);
      PackedFrom(host, entries[1..], offset + |PartsOf(host, entries[0], offset).value.locals|);
      assert forall i :: 0 < i < |entries| ==> entries[i] == entries[1..][i - 1];
      var m, rest := MemberOf(host, entries[0], offset), MembersOf(host, entries[1..], offset
        + |PartsOf(host, entries[0], offset).value.locals|);
      assert MembersOf(host, entries, offset) == [m] + rest;
      assert ([m] + rest)[1..] == rest;
    }
  }

  /**
   * A packed archive is, byte for byte, the local headers with their data, the directory and the end
   * record of its entries, with nothing between them.
   */
  lemma {:induction false} PacksLayout(host: Host, entries: seq<Entry>)
    requires PackZip(host, entries).Ok?
    ensures AllNormalize(entries)
    ensures var ms := MembersOf(host, entries, 0);
      var locals, records := AllLocals(ms), AllRecords(ms);
      PackZip(host, entries).value
      == locals + records + EndBytes(End(0, 0, |entries|, |entries|, |records|, |locals|, []))
  {
    Signatures();
    hide Le16, Le32, PackFrom, MembersOf, AllLocals, AllRecords;
    PackedFrom(host, entries, 0);
    assert Le16(0) + [] == Le16(0);
  }
}
