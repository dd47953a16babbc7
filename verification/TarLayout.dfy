/**
 * Tar files as sequences of 512-byte header blocks with their data, at the ustar offsets, whoever wrote
 * them, and what unpacking makes of them.
 */
module TarLayout {
  import opened Prelude
  import opened Bytes
  import opened ArchivePath
  import opened Entries
  import opened Tar
  import opened TarField
  import opened TarNumber

  // ----- the layout -----

  /** The fields that are read; `None` stands for a numeric field that holds no number. */
  datatype Header = Header(
    name: Path, mode: Option<nat>, size: Option<nat>, seconds: Option<nat>, kind: byte, prefix: Path)

  /** `text` fills the field or ends at a NUL. */
  predicate HoldsText(field: seq<byte>, text: seq<byte>) {
    text <= field && 0 !in text && (|text| == |field| || field[|text|] == 0)
  }

  ghost predicate HoldsNumber(field: seq<byte>, number: Option<nat>) {
    match number
    case Some(n) => Means(field, n)
    case None => forall n :: !Means(field, n)
  }

  ghost predicate AllZero(block: seq<byte>) {
    forall i :: 0 <= i < |block| ==> block[i] == 0
  }

  /** The type flag is read as seven bits. */
  ghost predicate IsHeader(block: seq<byte>, h: Header)
    requires |block| == 512
  {
    && !AllZero(block)
    && HoldsText(block[0..100], h.name) && HoldsNumber(block[100..108], h.mode)
    && HoldsNumber(block[124..136], h.size) && HoldsNumber(block[136..148], h.seconds)
    && block[156] % 128 == h.kind && HoldsText(block[345..500], h.prefix)
  }

  ghost predicate HeaderAt(buffer: seq<byte>, at: nat, h: Header) {
    at + 512 <= |buffer| && IsHeader(buffer[at..at + 512], h)
  }

  /** A zero block closes the archive, and so does the end of the buffer. */
  ghost predicate ClosedAt(buffer: seq<byte>, at: nat) {
    at + 512 > |buffer| || AllZero(buffer[at..at + 512])
  }

  function FullName(h: Header): Path {
    if h.prefix == [] then h.name else h.prefix + [SLASH] + h.name
  }

  /** Why an archive with this header at `at` is refused, if it is. */
  function Refusal(buffer: seq<byte>, at: nat, h: Header): Option<ArchiveError> {
    if h.mode.None? || h.size.None? || h.seconds.None? then Some(BadNumber)
    else
      match Normalize(FullName(h))
      case None => Some(UnsafePath(FullName(h)))
      case Some(path) =>
        if at + 512 + h.size.value > |buffer| then Some(PastEnd(path))
        else if h.kind != 48 && h.kind != 0 && h.kind != 53 then Some(UnsupportedType(h.kind))
        else None
  }

  /** The next header: behind the data, rounded up to whole blocks. */
  function Next(at: nat, h: Header): (next: nat)
    requires h.size.Some?
    ensures at + 512 + h.size.value <= next < at + 1024 + h.size.value && (next - at) % 512 == 0
  {
    at + 512 + (h.size.value + 511) / 512 * 512
  }

  /** Readable headers one behind the other, up to the close or to `last`, which is refused. */
  ghost predicate TarAt(buffer: seq<byte>, at: nat, headers: seq<Header>, last: Option<Header>)
    decreases |headers|
  {
    if headers == [] then
      match last
      case None => ClosedAt(buffer, at)
      case Some(h) => HeaderAt(buffer, at, h) && Refusal(buffer, at, h).Some?
    else
      HeaderAt(buffer, at, headers[0]) && Refusal(buffer, at, headers[0]).None?
      && TarAt(buffer, Next(at, headers[0]), headers[1..], last)
  }

  /** The file a header and its data stand for, if any: type `5` is a directory. */
  function FileAt(buffer: seq<byte>, at: nat, h: Header): seq<Entry>
    requires Refusal(buffer, at, h).None?
  {
    if h.kind == 53 then []
    else
      [Entry(Normalize(FullName(h)).value, buffer[at + 512..at + 512 + h.size.value], h.mode,
             Some(h.seconds.value * 1000))]
  }

  /** The regular files of an archive, in order. */
  function FilesAt(buffer: seq<byte>, at: nat, headers: seq<Header>): seq<Entry>
    decreases |headers|
  {
    if headers == [] || Refusal(buffer, at, headers[0]).Some? then []
    else FileAt(buffer, at, headers[0]) + FilesAt(buffer, Next(at, headers[0]), headers[1..])
  }

  /** Where the header behind these lies. */
  function Where(at: nat, headers: seq<Header>): nat
    decreases |headers|
  {
    if headers == [] || headers[0].size.None? then at else Where(Next(at, headers[0]), headers[1..])
  }

  // ----- reading the layout -----

  lemma {:induction false} ReadsText(field: seq<byte>, text: seq<byte>)
    requires HoldsText(field, text)
    ensures CutAtNul(field) == text
  {
    assert field == text + field[|text|..];
    CutsBefore(text, field[|text|..]);
  }

  lemma {:induction false} ReadsNumber(field: seq<byte>, number: Option<nat>)
    requires HoldsNumber(field, number)
    ensures ParseOctal(field) == number
  {
    hide Means, ParseOctal;
    match number
    case Some(n) => ParsesExactly(field, n);
    case None =>
      if ParseOctal(field).Some? {
        ParsesExactly(field, ParseOctal(field).value);
      }
  }

  lemma {:induction false} ReadsHeader(block: seq<byte>, h: Header)
    requires |block| == 512 && IsHeader(block, h)
    ensures ReadHeader(block) == match (h.mode, h.size, h.seconds)
      case (Some(mode), Some(size), Some(seconds)) =>
        (match Normalize(FullName(h))
         case None => Err(UnsafePath(FullName(h)))
         case Some(path) => Ok(HeaderInfo(path, size, mode, seconds * 1000, h.kind)))
      case _ => Err(BadNumber)
  {
    hide HoldsText, HoldsNumber, ParseOctal, CutAtNul, Normalize, AllZero;
    ReadsText(block[0..100], h.name);
    ReadsText(block[345..500], h.prefix);
    ReadsNumber(block[100..108], h.mode);
    ReadsNumber(block[124..136], h.size);
    ReadsNumber(block[136..148], h.seconds);
  }

  lemma {:induction false} ZeroOrNot(block: seq<byte>)
    ensures IsZeroBlock(block) <==> AllZero(block)
  {
    if IsZeroBlock(block) {
      assert forall i :: 0 <= i < |block| ==> block[i] in block;
    }
  }

  lemma {:induction false} ReadsLast(buffer: seq<byte>, at: nat, last: Option<Header>)
    requires TarAt(buffer, at, [], last)
    ensures ReadTar(buffer, at) == match last
      case None => Ok([])
      case Some(h) => Err(Refusal(buffer, at, h).value)
  {
    hide IsHeader, Normalize, AllZero, IsZeroBlock, ReadHeader;
    if at + 512 <= |buffer| {
      ZeroOrNot(buffer[at..at + 512]);
      if last.Some? {
        ReadsHeader(buffer[at..at + 512], last.value);
        NotZero(buffer[at..at + 512], last.value);
      }
    }
  }

  lemma {:induction false} NotZero(block: seq<byte>, h: Header)
    requires |block| == 512 && IsHeader(block, h)
    ensures !AllZero(block)
  {
  }

  /** One readable header: its file, if it is one, and then the rest. */
  lemma {:induction false} ReadsNext(buffer: seq<byte>, at: nat, h: Header)
    requires HeaderAt(buffer, at, h) && Refusal(buffer, at, h).None?
    ensures ReadTar(buffer, at) == Prepend(FileAt(buffer, at, h), ReadTar(buffer, Next(at, h)))
  {
    hide IsHeader, Normalize, AllZero, IsZeroBlock, ReadHeader;
    var block := buffer[at..at + 512];
    ZeroOrNot(block);
    NotZero(block, h);
    ReadsHeader(block, h);
    assert PadLength(h.size.value) == (h.size.value + 511) / 512 * 512;
    PrependNothing(ReadTar(buffer, Next(at, h)));
  }

  lemma {:induction false} ReadsTar(buffer: seq<byte>, at: nat, headers: seq<Header>, last: Option<Header>)
    requires TarAt(buffer, at, headers, last)
    ensures last.Some? ==> Refusal(buffer, Where(at, headers), last.value).Some?
    ensures ReadTar(buffer, at) == match last
      case None => Ok(FilesAt(buffer, at, headers))
      case Some(h) => Err(Refusal(buffer, Where(at, headers), h).value)
    decreases |headers|
  {
    assert headers != [] ==> headers[0].size.Some?;
    hide HeaderAt, ReadTar, Refusal, FileAt;
    if headers == [] {
      ReadsLast(buffer, at, last);
    } else {
      ReadsNext(buffer, at, headers[0]);
      ReadsTar(buffer, Next(at, headers[0]), headers[1..], last);
    }
  }

  // ----- what unpacking makes of a layout -----

  /** Any tar file unpacks to validating exactly its regular files in order, or is refused for its first bad header. */
  lemma {:induction false} UnpacksLayout(buffer: seq<byte>, headers: seq<Header>, last: Option<Header>, limits: Limits)
    requires TarAt(buffer, 0, headers, last)
    ensures last.None? ==> UnpackTar(buffer, limits) == Validate(FilesAt(buffer, 0, headers), limits)
    ensures last.Some? ==>
      Refusal(buffer, Where(0, headers), last.value).Some?
      && UnpackTar(buffer, limits) == Err(Refusal(buffer, Where(0, headers), last.value).value)
  {
    hide TarAt, ReadTar, Refusal, FilesAt, Validate;
    ReadsTar(buffer, 0, headers, last);
  }

  /** Every block that is not all zeros is a header, with some fields. */
  lemma {:induction false} EveryBlockIsHeader(block: seq<byte>) returns (h: Header)
    requires |block| == 512 && !AllZero(block)
    ensures IsHeader(block, h)
  {
    hide AllZero, Means, ParseOctal, CutAtNul;
    h := Header(CutAtNul(block[0..100]), ParseOctal(block[100..108]), ParseOctal(block[124..136]),
                ParseOctal(block[136..148]), block[156] % 128, CutAtNul(block[345..500]));
    EveryFieldHolds(block[0..100]);
    EveryFieldHolds(block[345..500]);
    EveryNumberIsOne(block[100..108]);
    EveryNumberIsOne(block[124..136]);
    EveryNumberIsOne(block[136..148]);
    hide HoldsText, HoldsNumber;
  }

  lemma {:induction false} EveryFieldHolds(field: seq<byte>)
    ensures HoldsText(field, CutAtNul(field))
  {
    CutShape(field);
  }

  lemma {:induction false} EveryNumberIsOne(field: seq<byte>)
    ensures HoldsNumber(field, ParseOctal(field))
  {
    hide Means, ParseOctal;
    forall n | ParseOctal(field) == None
      ensures !Means(field, n)
    {
      ParsesExactly(field, n);
    }
    if ParseOctal(field).Some? {
      ParsesExactly(field, ParseOctal(field).value);
    }
  }

  /** So every buffer is a tar file in this sense, and what unpacking makes of it is settled by the theorem above. */
  lemma {:induction false} EveryBufferIsLaidOut(buffer: seq<byte>, at: nat)
    returns (headers: seq<Header>, last: Option<Header>)
    ensures TarAt(buffer, at, headers, last)
    decreases |buffer| - at
  {
    hide IsHeader, AllZero, Normalize;
    headers, last := [], None;
    if at + 512 <= |buffer| && !AllZero(buffer[at..at + 512]) {
      var h := EveryBlockIsHeader(buffer[at..at + 512]);
      if Refusal(buffer, at, h).Some? {
        last := Some(h);
      } else {
        headers, last := EveryBufferIsLaidOut(buffer, Next(at, h));
        var all := [h] + headers;
        assert all[1..] == headers;
        headers := all;
      }
    }
  }

  // ----- what packing lays out -----

  /** The header of an entry, field by field. */
  ghost predicate IsUstar(h: seq<byte>, entry: Entry, path: Path)
    requires |h| == 512 && |NamePart(path)| <= 100 && |PrefixPart(path)| <= 155
  {
    && h[0..100] == Padded(NamePart(path), 100)
    && h[100..108] == OctalField(entry.mode.GetOr(0x1a4), 8)
    && h[108..116] == OctalField(0, 8) && h[116..124] == OctalField(0, 8)
    && h[124..136] == OctalField(|entry.data|, 12)
    && h[136..148] == OctalField(entry.mtime.GetOr(0) / 1000, 12)
    && h[148..156] == FixedOctal(Sum(h[..148] + seq(8, _ => 32) + h[156..]), 6) + [0, 32]
    && h[156] == 48 && AllZero(h[157..257])
    && h[257..265] == [117, 115, 116, 97, 114, 0, 48, 48] && AllZero(h[265..345])
    && h[345..500] == Padded(PrefixPart(path), 155) && AllZero(h[500..512])
  }

  /** Header, data, and zeros up to a whole number of blocks. */
  ghost predicate IsEntryBlock(block: seq<byte>, entry: Entry) {
    && Normalize(entry.path).Some? && |PrefixPart(Normalize(entry.path).value)| <= 155
    && |block| == 512 + (|entry.data| + 511) / 512 * 512
    && IsUstar(block[..512], entry, Normalize(entry.path).value)
    && block[512..512 + |entry.data|] == entry.data && AllZero(block[512 + |entry.data|..])
  }

  function AllOf(blocks: seq<seq<byte>>): seq<byte> {
    if blocks == [] then [] else blocks[0] + AllOf(blocks[1..])
  }

  lemma {:induction false} WrittenHeader(entry: Entry)
    requires TarHeader(entry).Ok?
    ensures Normalize(entry.path).Some? && |PrefixPart(Normalize(entry.path).value)| <= 155
    ensures |TarHeader(entry).value| == 512
    ensures IsUstar(TarHeader(entry).value, entry, Normalize(entry.path).value)
  {
    hide Normalize, HeaderFront, HeaderBack, OctalField, Padded, Sum, FixedOctal;
    var path := Normalize(entry.path).value;
    var front, back := FrontOf(entry, path), HeaderBack(PrefixPart(path));
    var h := TarHeader(entry).value;
    HeaderSlices(front, back);
    FrontSlices(NamePart(path), ModeOf(entry), |entry.data|, SecondsOf(entry));
    BackSlices(PrefixPart(path));
    assert h[..148] == h[0..148] == front && h[156..] == h[156..512] == back;
    assert BLANK_CHECKSUM == seq(8, _ => 32);
    assert forall i :: 0 <= i < 100 ==> back[1..101][i] == 0;
    assert h[157..257] == back[1..101] && h[257..265] == back[101..109] && h[265..345] == back[109..189];
    assert h[345..500] == back[189..344] && h[500..512] == back[344..356];
    assert [0, SPACE] == [0, 32];
  }

  lemma {:induction false} WrittenBlock(entry: Entry)
    requires EntryBlock(entry).Ok?
    ensures IsEntryBlock(EntryBlock(entry).value, entry)
  {
    hide Normalize, TarHeader, IsUstar;
    WrittenHeader(entry);
    var h, block := TarHeader(entry).value, EntryBlock(entry).value;
    assert block[..512] == h;
  }

  /** A packed archive is, byte for byte, one block per entry in order and 1024 zeros. */
  lemma {:induction false} PacksLayout(entries: seq<Entry>) returns (blocks: seq<seq<byte>>)
    requires PackTar(entries).Ok?
    ensures |blocks| == |entries| && forall i :: 0 <= i < |entries| ==> IsEntryBlock(blocks[i], entries[i])
    ensures PackTar(entries).value == AllOf(blocks) + seq(1024, _ => 0)
    decreases |entries|
  {
    hide IsEntryBlock, EntryBlock;
    if entries == [] {
      blocks := [];
      assert Zeros(1024) == [] + seq(1024, _ => 0);
    } else {
      var block := EntryBlock(entries[0]).value;
      WrittenBlock(entries[0]);
      var rest := PacksLayout(entries[1..]);
      blocks := [block] + rest;
      assert blocks[1..] == rest;
      assert block + (AllOf(rest) + seq(1024, _ => 0)) == (block + AllOf(rest)) + seq(1024, _ => 0);
    }
  }
}
