/** The ustar writer and reader. */
module Tar {
  import opened Prelude
  import opened Bytes
  import opened ArchivePath
  import opened Entries
  import opened TarField

  const BLOCK := 512
  const DEFAULT_MODE := 420
  const REGULAR: byte := 48
  const DIRECTORY: byte := 53
  const USTAR: seq<byte> := [117, 115, 116, 97, 114]
  const VERSION: seq<byte> := [48, 48]
  const BLANK_CHECKSUM: seq<byte> := [32, 32, 32, 32, 32, 32, 32, 32]

  // ----- writing one header -----

  /** The part of a path that goes to the name field: the last hundred bytes of a long path. */
  function NamePart(path: Path): Path {
    if |path| <= 100 then path else path[|path| - 100..]
  }

  /** What goes to the prefix field; the byte between the two parts is dropped, whatever it is. */
  function PrefixPart(path: Path): Path {
    if |path| <= 100 then [] else path[..|path| - 101]
  }

  /** The ustar header before the checksum field. */
  function HeaderFront(name: Path, mode: nat, size: nat, seconds: nat): (s: seq<byte>)
    requires |name| <= 100
    ensures |s| == 148
  {
    Padded(name, 100) + (OctalField(mode, 8) + (OctalField(0, 8) + (OctalField(0, 8)
    + (OctalField(size, 12) + OctalField(seconds, 12)))))
  }

  /** Type flag, link name, magic and version. */
  function Magic(): (s: seq<byte>)
    ensures |s| == 109
  {
    [REGULAR] + (Zeros(100) + (USTAR + ([0] + VERSION)))
  }

  /** The ustar header after the checksum field. */
  function HeaderBack(prefix: Path): (s: seq<byte>)
    requires |prefix| <= 155
    ensures |s| == 356
  {
    Magic() + (Zeros(80) + (Padded(prefix, 155) + Zeros(12)))
  }

  function ChecksumField(total: nat): (s: seq<byte>)
    ensures |s| == 8
  {
    FixedOctal(total, 6) + [0, SPACE]
  }

  function HeaderBytes(front: seq<byte>, back: seq<byte>): seq<byte> {
    front + ChecksumField(Sum(front + BLANK_CHECKSUM + back)) + back
  }

  function ModeOf(entry: Entry): nat {
    entry.mode.GetOr(DEFAULT_MODE)
  }

  function SecondsOf(entry: Entry): nat {
    entry.mtime.GetOr(0) / 1000
  }

  function FrontOf(entry: Entry, path: Path): seq<byte> {
    HeaderFront(NamePart(path), ModeOf(entry), |entry.data|, SecondsOf(entry))
  }

  function TarHeader(entry: Entry): Outcome<seq<byte>> {
    var path :- Normalized(entry.path);
    if |PrefixPart(path)| > 155 then Err(PathTooLong(path))
    else Ok(HeaderBytes(FrontOf(entry, path), HeaderBack(PrefixPart(path))))
  }

  /** Writing past untouched bytes leaves them zero. */
  method WriteAt(a: array<byte>, from: nat, offset: nat, piece: seq<byte>)
    requires from <= offset && offset + |piece| <= a.Length
    requires a[from..] == Zeros(a.Length - from)
    modifies a
    ensures a[..offset + |piece|] == old(a[..from]) + Zeros(offset - from) + piece
    ensures a[offset + |piece|..] == Zeros(a.Length - offset - |piece|)
  {
    assert a[from..offset] == Zeros(offset - from) by {
      assert a[from..offset] == a[from..][..offset - from];
    }
    assert a[offset..] == Zeros(a.Length - offset) by {
      assert a[offset..] == a[from..][offset - from..];
    }
    assert a[..offset] == a[..from] + a[from..offset];
    Append(a, offset, piece);
  }

  /** `writeTarOctal`: the digits, then a NUL. */
  method WriteTarOctal(a: array<byte>, from: nat, offset: nat, width: nat, value: nat)
    requires width > 1 && from <= offset && offset + width <= a.Length
    requires a[from..] == Zeros(a.Length - from)
    modifies a
    ensures a[..offset + width] == old(a[..from]) + Zeros(offset - from) + OctalField(value, width)
    ensures a[offset + width..] == Zeros(a.Length - offset - width)
  {
    OctalDigitsFixed(value, width - 1);
    WriteAt(a, from, offset, OctalDigits(value, width - 1));
    WriteAt(a, offset + width - 1, offset + width - 1, [0]);
    assert Zeros(0) == [];
    assert OctalField(value, width) == OctalDigits(value, width - 1) + [0];
  }

  method WriteFront(header: array<byte>, name: Path, entry: Entry)
    requires header.Length == BLOCK && header[..] == Zeros(BLOCK) && |name| <= 100
    modifies header
    ensures header[..148] == HeaderFront(name, ModeOf(entry), |entry.data|, SecondsOf(entry))
    ensures header[148..] == Zeros(BLOCK - 148)
  {
    hide OctalField, ModeOf, SecondsOf;
    WriteNameAndMode(header, name, ModeOf(entry));
    assert Zeros(0) == [];
    WriteTarOctal(header, 108, 108, 8, 0);
    WriteTarOctal(header, 116, 116, 8, 0);
    WriteTarOctal(header, 124, 124, 12, |entry.data|);
    WriteTarOctal(header, 136, 136, 12, SecondsOf(entry));
  }

  method WriteNameAndMode(header: array<byte>, name: Path, mode: nat)
    requires header.Length == BLOCK && header[..] == Zeros(BLOCK) && |name| <= 100
    modifies header
    ensures header[..108] == Padded(name, 100) + OctalField(mode, 8)
    ensures header[108..] == Zeros(BLOCK - 108)
  {
    hide OctalField;
    assert header[0..] == Zeros(BLOCK);
    WriteAt(header, 0, 0, name);
    assert header[..|name|] == name;
    WriteTarOctal(header, |name|, 100, 8, mode);
  }

  method WriteMagic(header: array<byte>)
    requires header.Length == BLOCK && header[148..] == Zeros(BLOCK - 148)
    modifies header
    ensures header[..265] == old(header[..148]) + BLANK_CHECKSUM + Magic()
    ensures header[265..] == Zeros(BLOCK - 265)
  {
    ghost var front := header[..148];
    assert Zeros(0) == [] && Zeros(1) == [0];
    WriteAt(header, 148, 148, BLANK_CHECKSUM);
    WriteAt(header, 156, 156, [REGULAR]);
    assert header[..157] == front + BLANK_CHECKSUM + [REGULAR];
    WriteAt(header, 157, 257, USTAR);
    assert header[..262] == front + BLANK_CHECKSUM + ([REGULAR] + (Zeros(100) + USTAR));
    WriteAt(header, 262, 263, VERSION);
  }

  method WritePrefix(header: array<byte>, prefix: Path)
    requires header.Length == BLOCK && header[265..] == Zeros(BLOCK - 265) && |prefix| <= 155
    modifies header
    ensures header[..] == old(header[..265]) + (Zeros(80) + (Padded(prefix, 155) + Zeros(12)))
  {
    if prefix != [] {
      WriteAt(header, 265, 345, prefix);
      assert header[..] == header[..345 + |prefix|] + header[345 + |prefix|..];
      assert Zeros(BLOCK - 345 - |prefix|) == Zeros(155 - |prefix|) + Zeros(12);
    } else {
      assert header[..] == header[..265] + header[265..];
      assert Zeros(BLOCK - 265) == Zeros(80) + (Padded(prefix, 155) + Zeros(12));
    }
  }

  method WriteTarHeader(entry: Entry) returns (result: Outcome<seq<byte>>)
    ensures result == TarHeader(entry)
  {
    hide HeaderFront, Magic, Normalize, ChecksumField;
    var path :- Normalized(entry.path);
    var name, prefix := NamePart(path), PrefixPart(path);
    if |name| > 100 || |prefix| > 155 {
      return Err(PathTooLong(path));
    }
    var header := Alloc(BLOCK);
    ghost var front, back := FrontOf(entry, path), HeaderBack(prefix);
    WriteFront(header, name, entry);
    assert header[..148] == front;
    WriteMagic(header);
    assert header[..265] == front + BLANK_CHECKSUM + Magic();
    WritePrefix(header, prefix);
    ghost var image := front + BLANK_CHECKSUM + back;
    assert header[..] == image;
    assert header[..148] == image[..148] == front && header[156..] == image[156..] == back;
    var checksum: nat := 0;
    for i := 0 to BLOCK
      invariant header[..] == image
      invariant checksum == Sum(header[..i])
    {
      SumConcat(header[..i], [header[i]]);
      assert header[..i + 1] == header[..i] + [header[i]];
      checksum := checksum + header[i];
    }
    assert header[..BLOCK] == header[..];
    SumBound(header[..]);
    assert header[..148] == front && header[156..] == back && checksum == Sum(image);
    WriteChecksum(header, checksum);
    assert header[..] == HeaderBytes(front, back);
    return Ok(header[..]);
  }

  method WriteChecksum(header: array<byte>, checksum: nat)
    requires header.Length == BLOCK && checksum <= 255 * BLOCK
    modifies header
    ensures header[..] == old(header[..148]) + ChecksumField(checksum) + old(header[156..])
  {
    hide ToOctal, PadStart, FixedOctal, LowDigits;
    ghost var was, digits := header[..], FixedOctal(checksum, 6);
    ChecksumDigits(checksum);
    Put(header, 148, PadStart(ToOctal(checksum), 6));
    assert header[..] == was[..148] + digits + was[154..];
    Put(header, 154, [0]);
    assert header[..] == was[..148] + digits + [0] + was[155..];
    Put(header, 155, [SPACE]);
    assert header[..] == was[..148] + (digits + [0, SPACE]) + was[156..];
  }

  /** The header sum always fits six octal digits, so padding alone gives the field its width. */
  lemma {:induction false} ChecksumDigits(total: nat)
    requires total <= 255 * 512
    ensures PadStart(ToOctal(total), 6) == FixedOctal(total, 6)
    ensures LowDigits(total, 6) == total
  {
    assert Pow8(6) == 262144;
    ToOctalShort(total, 6);
    OctalDigitsFixed(total, 6);
    LowDigitsFit(total, 6);
  }

  lemma {:induction false} ToOctalShort(value: nat, width: nat)
    requires value < Pow8(width) && width > 0
    ensures |ToOctal(value)| <= width
    decreases width
  {
    if value >= 8 {
      assert width > 1 by { assert Pow8(1) == 8; }
      ToOctalShort(value / 8, width - 1);
    }
  }

  // ----- reading one header -----

  datatype HeaderInfo = HeaderInfo(path: Path, size: nat, mode: nat, mtime: nat, flag: byte)

  function NumberField(field: seq<byte>): Outcome<nat> {
    match ParseOctal(field)
    case Some(n) => Ok(n)
    case None => Err(BadNumber)
  }

  function RawPath(header: seq<byte>): Path
    requires |header| == BLOCK
  {
    var name, prefix := CutAtNul(header[0..100]), CutAtNul(header[345..500]);
    if prefix == [] then name else prefix + [SLASH] + name
  }

  /** Decoding the type flag as ASCII drops its top bit. */
  function ReadHeader(header: seq<byte>): Outcome<HeaderInfo>
    requires |header| == BLOCK
  {
    var mode :- NumberField(header[100..108]);
    var size :- NumberField(header[124..136]);
    var seconds :- NumberField(header[136..148]);
    var path :- Normalized(RawPath(header));
    Ok(HeaderInfo(path, size, mode, seconds * 1000, header[156] % 128))
  }

  /** The path a written header gives back, before it is normalised again. */
  function StoredPath(path: Path): Path
    requires |PrefixPart(path)| <= 155
  {
    var name, prefix := CutAtNul(Padded(NamePart(path), 100)), CutAtNul(Padded(PrefixPart(path), 155));
    if prefix == [] then name else prefix + [SLASH] + name
  }

  lemma {:induction false} FrontSlices(name: Path, mode: nat, size: nat, seconds: nat)
    requires |name| <= 100
    ensures var h := HeaderFront(name, mode, size, seconds);
      && h[0..100] == Padded(name, 100)
      && h[100..108] == OctalField(mode, 8)
      && h[108..116] == OctalField(0, 8)
      && h[116..124] == OctalField(0, 8)
      && h[124..136] == OctalField(size, 12)
      && h[136..148] == OctalField(seconds, 12)
  {
    var h := HeaderFront(name, mode, size, seconds);
    var f1, f2, f3, f5, f6 :=
      Padded(name, 100), OctalField(mode, 8), OctalField(0, 8), OctalField(size, 12), OctalField(seconds, 12);
    assert At(h, 0, h);
    AtConcat(h, 0, f1, f2 + (f3 + (f3 + (f5 + f6))));
    AtConcat(h, 100, f2, f3 + (f3 + (f5 + f6)));
    AtConcat(h, 108, f3, f3 + (f5 + f6));
    AtConcat(h, 116, f3, f5 + f6);
    AtConcat(h, 124, f5, f6);
  }

  lemma {:induction false} BackSlices(prefix: Path)
    requires |prefix| <= 155
    ensures var h := HeaderBack(prefix);
      && h[0] == REGULAR && h[1..101] == Zeros(100)
      && h[101..106] == USTAR && h[106..109] == [0] + VERSION && h[109..189] == Zeros(80)
      && h[189..344] == Padded(prefix, 155) && h[344..356] == Zeros(12)
  {
    var h := HeaderBack(prefix);
    var p := Padded(prefix, 155) + Zeros(12);
    assert At(h, 0, h);
    AtConcat(h, 0, Magic(), Zeros(80) + p);
    AtConcat(h, 0, [REGULAR], Zeros(100) + (USTAR + ([0] + VERSION)));
    AtConcat(h, 1, Zeros(100), USTAR + ([0] + VERSION));
    AtConcat(h, 101, USTAR, [0] + VERSION);
    AtConcat(h, 106, [0] + VERSION, []);
    AtConcat(h, 109, Zeros(80), p);
    AtConcat(h, 189, Padded(prefix, 155), Zeros(12));
  }

  lemma {:induction false} HeaderSlices(front: seq<byte>, back: seq<byte>)
    requires |front| == 148 && |back| == 356
    ensures var h := HeaderBytes(front, back);
      && |h| == BLOCK
      && h[148..156] == ChecksumField(Sum(front + BLANK_CHECKSUM + back))
      && (forall i, j :: 0 <= i <= j <= 148 ==> h[i..j] == front[i..j])
      && (forall i, j :: 156 <= i <= j <= BLOCK ==> h[i..j] == back[i - 156..j - 156])
      && h[156] == back[0]
  {
  }

  /** The checksum rule of the ustar format: the field holds the sum taken with the field blank. */
  lemma {:induction false} ChecksumRule(entry: Entry)
    requires TarHeader(entry).Ok?
    ensures var h := TarHeader(entry).value;
      && |h| == BLOCK
      && ParseOctal(h[148..156]) == Some(Sum(h[..148] + BLANK_CHECKSUM + h[156..]))
      && h[257..262] == USTAR
  {
    var path := Normalize(entry.path).value;
    var front, back := FrontOf(entry, path), HeaderBack(PrefixPart(path));
    var total := Sum(front + BLANK_CHECKSUM + back);
    HeaderSlices(front, back);
    BackSlices(PrefixPart(path));
    SumBound(front + BLANK_CHECKSUM + back);
    ChecksumDigits(total);
    ParseFixed(total, 6, [SPACE]);
    assert ChecksumField(total) == FixedOctal(total, 6) + [0] + [SPACE];
    var h := TarHeader(entry).value;
    assert h[..148] == h[0..148] == front[0..148] == front;
    assert h[156..] == h[156..BLOCK] == back;
  }

  lemma {:induction false} WrittenFields(entry: Entry)
    requires TarHeader(entry).Ok?
    ensures var h, path := TarHeader(entry).value, Normalize(entry.path).value;
      && |h| == BLOCK && |PrefixPart(path)| <= 155
      && h[0..100] == Padded(NamePart(path), 100)
      && h[345..500] == Padded(PrefixPart(path), 155)
      && h[100..108] == OctalField(ModeOf(entry), 8)
      && h[124..136] == OctalField(|entry.data|, 12)
      && h[136..148] == OctalField(SecondsOf(entry), 12)
      && h[156] == REGULAR
  {
    hide HeaderFront, HeaderBack, Normalize, ChecksumField, OctalField, Padded;
    var path := Normalize(entry.path).value;
    var front, back := FrontOf(entry, path), HeaderBack(PrefixPart(path));
    HeaderSlices(front, back);
    FrontSlices(NamePart(path), ModeOf(entry), |entry.data|, SecondsOf(entry));
    BackSlices(PrefixPart(path));
    assert TarHeader(entry).value[345..500] == back[189..344];
  }

  /** A written header reads back as the stored path, the size and the truncated mode and time. */
  lemma {:induction false} ReadWrittenHeader(entry: Entry)
    requires TarHeader(entry).Ok? && |entry.data| < Pow8(11)
    requires Normalize(StoredPath(Normalize(entry.path).value)).Some?
    ensures |TarHeader(entry).value| == BLOCK
    ensures ReadHeader(TarHeader(entry).value) == Ok(HeaderInfo(
      Normalize(StoredPath(Normalize(entry.path).value)).value, |entry.data|,
      LowDigits(ModeOf(entry), 7), LowDigits(SecondsOf(entry), 11) * 1000, REGULAR))
  {
    hide TarHeader, Normalize, ParseOctal, LowDigits, OctalField, Padded, CutAtNul, ModeOf, SecondsOf;
    WrittenFields(entry);
    OctalFieldRoundTrip(ModeOf(entry), 8);
    OctalFieldRoundTrip(|entry.data|, 12);
    OctalFieldRoundTrip(SecondsOf(entry), 12);
    LowDigitsFit(|entry.data|, 11);
  }

  /** A path short enough, or cut by chance at a slash, and free of NULs. */
  predicate TarPathFits(path: Path) {
    0 !in path && (|path| <= 100 || (|path| <= 256 && path[|path| - 101] == SLASH))
  }

  /** A header gives back the path it was written for exactly when `TarPathFits`. */
  lemma {:induction false} StoredPathSurvives(path: Path)
    requires Safe(path) && |path| <= 256
    ensures Normalize(StoredPath(path)) == Some(path) <==> TarPathFits(path)
  {
    var name, prefix := NamePart(path), PrefixPart(path);
    var stored := StoredPath(path);
    CutPadded(name, 100);
    CutPadded(prefix, 155);
    if TarPathFits(path) {
      if |path| > 100 {
        assert path == prefix + [SLASH] + name;
        FirstSegment(path);
        assert Split(path)[0] in Split(path);
      }
      assert stored == path;
      SafeIsFixed(path);
    } else if Normalize(stored) == Some(path) {
      NormalizeShortens(stored);
      assert |stored| <= |path|;
      assert BACKSLASH !in stored by {
        CutBytes(Padded(name, 100), BACKSLASH);
        CutBytes(Padded(prefix, 155), BACKSLASH);
      }
      NormalizeSameLength(stored);
    }
  }

  /** A plain name of 101 bytes is written without complaint and comes back as another name. */
  lemma {:induction false} LongNameIsCut()
    ensures var path := seq(101, _ => 97);
      && Safe(path) && Normalize(StoredPath(path)) != Some(path)
      && TarHeader(Entry(path, [], None, None)).Ok?
  {
    var path: Path := seq(101, _ => 97);
    SplitPlain(path);
    StoredPathSurvives(path);
    SafeIsFixed(path);
    assert path == seq(101, _ => 97);
  }

  lemma {:induction false} CutBytes(s: seq<byte>, b: byte)
    requires b !in s
    ensures b !in CutAtNul(s)
  {
    if s != [] {
      CutBytes(s[1..], b);
    }
  }

  lemma {:induction false} NormalizeShortens(raw: Path)
    requires Normalize(raw).Some?
    ensures |Normalize(raw).value| <= |raw|
  {
    var s := Slashed(raw);
    if |s| >= 2 {
      DropShortens(s[1..]);
    }
    var d := DropDotSlash(s);
    DropShortens(d);
    var p := DropTrailingSlashes(d);
    JoinNonEmptyShortens(Split(p));
    JoinSplit(p);
  }

  // ----- whole archives -----

  function PadLength(length: nat): (padded: nat)
    ensures length <= padded < length + BLOCK && padded % BLOCK == 0
  {
    (length + BLOCK - 1) / BLOCK * BLOCK
  }

  function Block(header: seq<byte>, data: seq<byte>): seq<byte> {
    header + data + Zeros(PadLength(|data|) - |data|)
  }

  /** Header, data and padding of one entry. */
  function EntryBlock(entry: Entry): Outcome<seq<byte>> {
    var header :- TarHeader(entry);
    Ok(Block(header, entry.data))
  }

  function PackTar(entries: seq<Entry>): Outcome<seq<byte>> {
    if entries == [] then Ok(Zeros(1024))
    else
      var block :- EntryBlock(entries[0]);
      var rest :- PackTar(entries[1..]);
      Ok(block + rest)
  }

  method WriteEntry(entry: Entry) returns (result: Outcome<seq<byte>>)
    ensures result == EntryBlock(entry)
  {
    hide TarHeader;
    var header :- WriteTarHeader(entry);
    var block := header + entry.data;
    var padding := PadLength(|entry.data|) - |entry.data|;
    if padding > 0 {
      block := block + Zeros(padding);
    }
    assert block == Block(header, entry.data);
    return Ok(block);
  }

  method WriteTar(entries: seq<Entry>) returns (result: Outcome<seq<byte>>)
    ensures result == PackTar(entries)
  {
    hide EntryBlock;
    var written: seq<byte> := [];
    assert entries[0..] == entries;
    PrependNothing(PackTar(entries));
    for i := 0 to |entries|
      invariant PackTar(entries) == Prepend(written, PackTar(entries[i..]))
    {
      PackStep(entries, i);
      var block :- WriteEntry(entries[i]);
      PrependTwice(written, block, PackTar(entries[i + 1..]));
      written := written + block;
    }
    assert entries[|entries|..] == [];
    return Ok(written + Zeros(1024));
  }

  lemma {:induction false} PackStep(entries: seq<Entry>, i: nat)
    requires i < |entries|
    ensures PackTar(entries[i..]) == match EntryBlock(entries[i])
      case Err(e) => Err(e)
      case Ok(block) => Prepend(block, PackTar(entries[i + 1..]))
  {
    hide EntryBlock;
    assert entries[i..][0] == entries[i] && entries[i..][1..] == entries[i + 1..];
  }

  predicate IsZeroBlock(block: seq<byte>) {
    forall b :: b in block ==> b == 0
  }

  function ReadTar(buffer: seq<byte>, offset: nat): Outcome<seq<Entry>>
    decreases |buffer| - offset
  {
    if offset + BLOCK > |buffer| || IsZeroBlock(buffer[offset..offset + BLOCK]) then Ok([])
    else
      var info :- ReadHeader(buffer[offset..offset + BLOCK]);
      var start := offset + BLOCK;
      if start + info.size > |buffer| then Err(PastEnd(info.path))
      else if info.flag == REGULAR || info.flag == 0 then
        var rest :- ReadTar(buffer, start + PadLength(info.size));
        Ok([Entry(info.path, buffer[start..start + info.size], Some(info.mode), Some(info.mtime))] + rest)
      else if info.flag == DIRECTORY then ReadTar(buffer, start + PadLength(info.size))
      else Err(UnsupportedType(info.flag))
  }

  function UnpackTar(buffer: seq<byte>, limits: Limits): Outcome<seq<Entry>> {
    var entries :- ReadTar(buffer, 0);
    Validate(entries, limits)
  }

  method ReadTarArchive(buffer: seq<byte>, limits: Limits) returns (result: Outcome<seq<Entry>>)
    ensures result == UnpackTar(buffer, limits)
  {
    hide ReadHeader, Validate, PadLength;
    var entries: seq<Entry> := [];
    var offset: nat := 0;
    PrependNothing(ReadTar(buffer, 0));
    while offset + BLOCK <= |buffer|
      invariant ReadTar(buffer, 0) == Prepend(entries, ReadTar(buffer, offset))
      decreases |buffer| - offset
    {
      var header := buffer[offset..offset + BLOCK];
      if IsZeroBlock(header) {
        break;
      }
      var info :- ReadHeader(header);
      var start := offset + BLOCK;
      if start + info.size > |buffer| {
        return Err(PastEnd(info.path));
      }
      if info.flag == REGULAR || info.flag == 0 {
        var entry := Entry(info.path, buffer[start..start + info.size], Some(info.mode), Some(info.mtime));
        PrependTwice(entries, [entry], ReadTar(buffer, start + PadLength(info.size)));
        entries := entries + [entry];
      } else if info.flag != DIRECTORY {
        return Err(UnsupportedType(info.flag));
      }
      offset := start + PadLength(info.size);
    }
    assert entries + [] == entries;
    result := ValidateEntries(entries, limits);
  }

  // ----- the round trip -----

  /** What an archived entry comes back as. */
  function Stored(entry: Entry): Entry
    requires Normalize(entry.path).Some?
  {
    Entry(Normalize(entry.path).value, entry.data,
          Some(LowDigits(ModeOf(entry), 7)), Some(LowDigits(SecondsOf(entry), 11) * 1000))
  }

  function AllStored(entries: seq<Entry>): (out: seq<Entry>)
    requires AllNormalize(entries)
    ensures |out| == |entries| && forall i :: 0 <= i < |entries| ==> out[i] == Stored(entries[i])
  {
    seq(|entries|, i requires 0 <= i < |entries| => Stored(entries[i]))
  }

  ghost predicate AllFit(entries: seq<Entry>) {
    && AllNormalize(entries)
    && forall i :: 0 <= i < |entries| ==>
      TarPathFits(Normalize(entries[i].path).value) && |entries[i].data| < Pow8(11)
  }

  lemma {:induction false} HeaderIsNotZero(entry: Entry)
    requires TarHeader(entry).Ok?
    ensures |TarHeader(entry).value| == BLOCK && !IsZeroBlock(TarHeader(entry).value)
  {
    hide TarHeader;
    ChecksumRule(entry);
    var h := TarHeader(entry).value;
    assert h[257..262][0] == h[257];
    assert h[257] in h;
  }

  ghost predicate Writable(entry: Entry) {
    && Normalize(entry.path).Some?
    && TarPathFits(Normalize(entry.path).value)
    && TarHeader(entry).Ok?
    && |entry.data| < Pow8(11)
  }

  lemma {:induction false} StoredHeader(entry: Entry)
    requires Writable(entry)
    ensures var h := TarHeader(entry).value;
      && |h| == BLOCK && !IsZeroBlock(h)
      && ReadHeader(h)
           == Ok(HeaderInfo(Stored(entry).path, |entry.data|, Stored(entry).mode.value, Stored(entry).mtime.value,
                            REGULAR))
  {
    hide TarHeader, ReadHeader, Normalize, LowDigits, StoredPath, Safe;
    NormalizeIsSafe(entry.path);
    StoredPathSurvives(Normalize(entry.path).value);
    ReadWrittenHeader(entry);
    HeaderIsNotZero(entry);
  }

  /** Reading one written entry yields it as stored and goes on right behind its block. */
  lemma {:induction false} ReadOne(buffer: seq<byte>, offset: nat, entry: Entry, rest: seq<byte>)
    requires Writable(entry)
    requires At(buffer, offset, EntryBlock(entry).value + rest)
    ensures At(buffer, offset + BLOCK + PadLength(|entry.data|), rest)
    ensures ReadTar(buffer, offset)
      == Prepend([Stored(entry)], ReadTar(buffer, offset + BLOCK + PadLength(|entry.data|)))
  {
    hide TarHeader, ReadHeader, Normalize, TarPathFits, Pow8, ModeOf, SecondsOf, LowDigits, IsZeroBlock;
    var header := TarHeader(entry).value;
    var padding := Zeros(PadLength(|entry.data|) - |entry.data|);
    StoredHeader(entry);
    assert Block(header, entry.data) + rest == header + (entry.data + (padding + rest));
    AtConcat(buffer, offset, header, entry.data + (padding + rest));
    AtConcat(buffer, offset + BLOCK, entry.data, padding + rest);
    AtConcat(buffer, offset + BLOCK + |entry.data|, padding, rest);
  }

  lemma {:induction false} PackTail(entries: seq<Entry>)
    requires entries != [] && AllFit(entries) && PackTar(entries).Ok?
    ensures Writable(entries[0]) && AllFit(entries[1..]) && PackTar(entries[1..]).Ok?
    ensures PackTar(entries).value == EntryBlock(entries[0]).value + PackTar(entries[1..]).value
    ensures AllStored(entries) == [Stored(entries[0])] + AllStored(entries[1..])
  {
    hide TarHeader, Normalize, Stored, Block, TarPathFits, Pow8;
    assert forall i :: 0 < i < |entries| ==> entries[i] == entries[1..][i - 1];
  }

  lemma {:induction false} ReadEnd(buffer: seq<byte>, offset: nat)
    requires At(buffer, offset, Zeros(1024))
    ensures ReadTar(buffer, offset) == Ok([])
  {
    hide ReadHeader;
    assert Zeros(1024) == Zeros(BLOCK) + Zeros(BLOCK);
    AtConcat(buffer, offset, Zeros(BLOCK), Zeros(BLOCK));
  }

  /** Reading finds each written entry in turn and stops at the closing zero blocks. */
  lemma {:induction false} ReadPacked(buffer: seq<byte>, offset: nat, entries: seq<Entry>)
    requires AllFit(entries) && PackTar(entries).Ok?
    requires At(buffer, offset, PackTar(entries).value)
    ensures ReadTar(buffer, offset) == Ok(AllStored(entries))
    decreases |entries|
  {
    hide EntryBlock, ReadTar, Stored, AllFit, Writable, At;
    if entries == [] {
      ReadEnd(buffer, offset);
    } else {
      var entry, others := entries[0], entries[1..];
      PackTail(entries);
      ReadOne(buffer, offset, entry, PackTar(others).value);
      ReadPacked(buffer, offset + BLOCK + PadLength(|entry.data|), others);
    }
  }

  /** Unpacking what was packed is validating the entries as stored: nothing lost, added or reordered. */
  lemma {:induction false} TarRoundTrip(entries: seq<Entry>, limits: Limits)
    requires AllFit(entries) && PackTar(entries).Ok?
    ensures UnpackTar(PackTar(entries).value, limits) == Validate(AllStored(entries), limits)
  {
    var archive := PackTar(entries).value;
    assert archive[0..|archive|] == archive;
    ReadPacked(archive, 0, entries);
  }

  lemma {:induction false} FittingHeader(entry: Entry)
    requires Normalize(entry.path).Some? && TarPathFits(Normalize(entry.path).value)
    ensures TarHeader(entry).Ok?
  {
  }

  /** Entries whose paths fit are always packed, into whole blocks that start like a ustar archive. */
  lemma {:induction false} PackShape(entries: seq<Entry>)
    requires AllFit(entries)
    ensures PackTar(entries).Ok?
    ensures var archive := PackTar(entries).value;
      && |archive| >= 1024 && |archive| % BLOCK == 0
      && (entries == [] ==> IsZeroBlock(archive[..BLOCK]))
      && (entries != [] ==> archive[257..262] == USTAR)
  {
    hide TarHeader, Normalize, TarPathFits;
    if entries != [] {
      var entry, others := entries[0], entries[1..];
      assert AllFit(others);
      PackShape(others);
      FittingHeader(entry);
      ChecksumRule(entry);
      BlockShape(TarHeader(entry).value, entry.data, PackTar(others).value);
    }
  }

  lemma {:induction false} BlockShape(header: seq<byte>, data: seq<byte>, rest: seq<byte>)
    requires |header| == BLOCK && |rest| % BLOCK == 0
    ensures |Block(header, data) + rest| % BLOCK == 0
    ensures (Block(header, data) + rest)[257..262] == header[257..262]
  {
  }

  // ----- every input -----

  /** Where the data of each entry starts in the buffer. */
  ghost function DataStarts(buffer: seq<byte>, offset: nat): seq<nat>
    requires ReadTar(buffer, offset).Ok?
    decreases |buffer| - offset
  {
    hide ReadHeader;
    if offset + BLOCK > |buffer| || IsZeroBlock(buffer[offset..offset + BLOCK]) then []
    else
      var info := ReadHeader(buffer[offset..offset + BLOCK]).value;
      var rest := DataStarts(buffer, offset + BLOCK + PadLength(info.size));
      if info.flag == DIRECTORY then rest else [offset + BLOCK] + rest
  }

  /** Entry `i` is the stretch of the buffer at `starts[i]`; stretches ascend with a header between them. */
  ghost predicate Slices(buffer: seq<byte>, offset: nat, entries: seq<Entry>, starts: seq<nat>) {
    && |starts| == |entries|
    && (forall i :: 0 <= i < |entries| ==> offset + BLOCK <= starts[i] && At(buffer, starts[i], entries[i].data))
    && (forall i, j :: 0 <= i < j < |entries| ==> starts[i] + |entries[i].data| + BLOCK <= starts[j])
    && (forall i :: 0 <= i < |entries| ==> Safe(entries[i].path))
    && (entries == [] || offset + BLOCK * |entries| + TotalLength(entries) <= |buffer|)
  }

  lemma {:induction false} ReadHeaderSafe(header: seq<byte>)
    requires |header| == BLOCK && ReadHeader(header).Ok?
    ensures Safe(ReadHeader(header).value.path)
  {
    NormalizeIsSafe(RawPath(header));
  }

  lemma {:induction false} ReadSlices(buffer: seq<byte>, offset: nat)
    requires ReadTar(buffer, offset).Ok?
    ensures Slices(buffer, offset, ReadTar(buffer, offset).value, DataStarts(buffer, offset))
    decreases |buffer| - offset
  {
    hide ReadHeader, Safe, IsZeroBlock, Slices;
    if offset + BLOCK > |buffer| || IsZeroBlock(buffer[offset..offset + BLOCK]) {
      SlicesNone(buffer, offset);
    } else {
      var header := buffer[offset..offset + BLOCK];
      var info := ReadHeader(header).value;
      var next := offset + BLOCK + PadLength(info.size);
      ReadSlices(buffer, next);
      ReadHeaderSafe(header);
      var rest, starts := ReadTar(buffer, next).value, DataStarts(buffer, next);
      if info.flag == DIRECTORY {
        SlicesSkip(buffer, offset, next, rest, starts);
      } else {
        var start := offset + BLOCK;
        SlicesCons(buffer, offset,
                   Entry(info.path, buffer[start..start + info.size], Some(info.mode), Some(info.mtime)), rest, starts);
      }
    }
  }

  lemma {:induction false} SlicesNone(buffer: seq<byte>, offset: nat)
    ensures Slices(buffer, offset, [], [])
  {
  }

  lemma {:induction false} SlicesSkip(buffer: seq<byte>, offset: nat, next: nat, entries: seq<Entry>, starts: seq<nat>)
    requires offset <= next && Slices(buffer, next, entries, starts)
    ensures Slices(buffer, offset, entries, starts)
  {
    hide Safe, At;
  }

  lemma {:induction false} EndOfPiece(buffer: seq<byte>, offset: nat, piece: seq<byte>)
    requires At(buffer, offset, piece)
    ensures offset + |piece| <= |buffer|
  {
  }

  lemma {:induction false} SlicesCons(buffer: seq<byte>, offset: nat, entry: Entry, rest: seq<Entry>, starts: seq<nat>)
    requires Safe(entry.path) && At(buffer, offset + BLOCK, entry.data)
    requires Slices(buffer, offset + BLOCK + PadLength(|entry.data|), rest, starts)
    ensures Slices(buffer, offset, [entry] + rest, [offset + BLOCK] + starts)
  {
    hide Safe, At;
    var all, shifted := [entry] + rest, [offset + BLOCK] + starts;
    assert forall i :: 0 < i < |all| ==> all[i] == rest[i - 1];
    assert forall i :: 0 < i < |shifted| ==> shifted[i] == starts[i - 1];
    assert |entry.data| <= PadLength(|entry.data|);
    assert rest == [] ==> offset + BLOCK + |entry.data| <= |buffer| by {
      EndOfPiece(buffer, offset + BLOCK, entry.data);
    }
    assert all[1..] == rest;
    assert TotalLength(all) == |entry.data| + TotalLength(rest);
  }

  lemma {:induction false} UnpackedIsRead(buffer: seq<byte>, limits: Limits)
    requires UnpackTar(buffer, limits).Ok?
    ensures ReadTar(buffer, 0).Ok? && UnpackTar(buffer, limits).value == ReadTar(buffer, 0).value
    ensures Acceptable(ReadTar(buffer, 0).value, limits) && DistinctPaths(ReadTar(buffer, 0).value)
  {
    hide ReadTar, Normalize, Safe;
    var entries := ReadTar(buffer, 0).value;
    ReadSlices(buffer, 0);
    ValidateMeaning(entries, limits);
    forall i | 0 <= i < |entries|
      ensures NormalForm(entries)[i] == entries[i]
    {
      SafeIsFixed(entries[i].path);
    }
    assert NormalForm(entries) == entries;
  }

  /**
   * For every buffer, an unpacked archive consists of exact disjoint slices of its input, within
   * its length and every limit, under distinct safe paths.
   */
  lemma {:induction false} UnpackTarSound(buffer: seq<byte>, limits: Limits)
    requires UnpackTar(buffer, limits).Ok?
    ensures var entries := UnpackTar(buffer, limits).value;
      && Slices(buffer, 0, entries, DataStarts(buffer, 0))
      && DistinctPaths(entries)
      && |entries| <= limits.maxEntryCount
      && TotalLength(entries) <= limits.maxTotalUnpackedByteLength
      && (forall i :: 0 <= i < |entries| ==> |entries[i].data| <= limits.maxEntryByteLength)
  {
    hide UnpackTar, ReadTar, Slices;
    UnpackedIsRead(buffer, limits);
    ReadSlices(buffer, 0);
  }
}
