/** Splitting, repacking and comparing archives of all four formats. */
module SplitArtifact {
  import opened Prelude
  import opened Bytes
  import opened ArchivePath
  import opened Entries
  import opened Sorting
  import opened Zip
  import Crc32
  import Tar
  import TarField
  import ZipRoundTrip

  datatype Format = GzipTar | PlainTar | UnityPackage | ZipArchive

  /** The library laws the adapters rely on. */
  ghost predicate Lawful(host: Host) {
    && (forall data :: host.inflate(host.deflate(data)) == Some(data))
    && (forall data :: host.gunzip(host.gzip(data)) == Some(data))
    && (forall data :: |host.gzip(data)| >= 2 && host.gzip(data)[0] == 0x1f && host.gzip(data)[1] == 0x8b)
  }

  // ----- detection -----

  predicate EndsWith(s: string, suffix: string) {
    |s| >= |suffix| && s[|s| - |suffix|..] == suffix
  }

  /** The format a lower-cased filename claims. */
  function ClaimedFormat(lowerName: string): Option<Format> {
    if EndsWith(lowerName, ".unitypackage") then Some(UnityPackage)
    else if EndsWith(lowerName, ".tar.gz") || EndsWith(lowerName, ".tgz") then Some(GzipTar)
    else if EndsWith(lowerName, ".tar") then Some(PlainTar)
    else if EndsWith(lowerName, ".zip") then Some(ZipArchive)
    else None
  }

  /** The endings a format goes by. */
  function Endings(format: Format): set<string> {
    match format
    case UnityPackage => {".unitypackage"}
    case GzipTar => {".tar.gz", ".tgz"}
    case PlainTar => {".tar"}
    case ZipArchive => {".zip"}
  }

  /** A lower-cased filename that is some stem and an ending of the format. */
  ghost predicate Named(lowerName: string, format: Format) {
    exists stem, ending :: ending in Endings(format) && lowerName == stem + ending
  }

  lemma {:induction false} EndingIsClaimed(stem: string, ending: string, format: Format)
    requires ending in Endings(format)
    ensures ClaimedFormat(stem + ending) == Some(format)
  {
    var name := stem + ending;
    assert EndsWith(name, ending);
    assert name[|name| - 1] == ending[|ending| - 1];
  }

  lemma {:induction false} EndsAreNamed(lowerName: string, ending: string, format: Format)
    requires EndsWith(lowerName, ending) && ending in Endings(format)
    ensures Named(lowerName, format)
  {
    assert lowerName == lowerName[..|lowerName| - |ending|] + ending;
  }

  /** Names are claimed by their endings, and by nothing else. */
  lemma {:induction false} NamesAreClaimed(lowerName: string, format: Format)
    ensures Named(lowerName, format) <==> ClaimedFormat(lowerName) == Some(format)
  {
    if Named(lowerName, format) {
      var stem, ending :| ending in Endings(format) && lowerName == stem + ending;
      EndingIsClaimed(stem, ending, format);
    }
    if ClaimedFormat(lowerName) == Some(format) {
      var ending :| ending in Endings(format) && EndsWith(lowerName, ending);
      EndsAreNamed(lowerName, ending, format);
    }
  }

  /** Decoding as ASCII drops the top bit of each byte. */
  function Ascii(s: seq<byte>): seq<byte> {
    seq(|s|, i requires 0 <= i < |s| => s[i] % 128)
  }

  predicate LooksLikeTar(buffer: seq<byte>) {
    && |buffer| >= 1024 && |buffer| % 512 == 0
    && (Tar.USTAR <= Ascii(buffer[257..263]) || Tar.IsZeroBlock(buffer[0..512]))
  }

  predicate LooksLikeGzipTar(host: Host, buffer: seq<byte>) {
    && |buffer| >= 2 && buffer[0] == 0x1f && buffer[1] == 0x8b
    && match host.gunzip(buffer)
       case Some(tar) => LooksLikeTar(tar)
       case None => false
  }

  predicate LooksLike(host: Host, format: Format, buffer: seq<byte>) {
    match format
    case PlainTar => LooksLikeTar(buffer)
    case ZipArchive => FindEnd(buffer).Some?
    case _ => LooksLikeGzipTar(host, buffer)
  }

  function Detect(host: Host, lowerName: string, archive: seq<byte>): Option<Format> {
    match ClaimedFormat(lowerName)
    case None => None
    case Some(format) => if LooksLike(host, format, archive) then Some(format) else None
  }

  // ----- splitting and creating -----

  datatype SplitResult = SplitResult(entries: seq<Entry>, format: Format, originalLogicalByteLength: nat)

  function Gunzip(host: Host, buffer: seq<byte>): Outcome<seq<byte>> {
    match host.gunzip(buffer)
    case Some(tar) => Ok(tar)
    case None => Err(CorruptStream)
  }

  function Split(host: Host, lowerName: string, archive: seq<byte>, limits: Limits): Outcome<SplitResult> {
    match Detect(host, lowerName, archive)
    case None => Err(UnsupportedFile)
    case Some(format) =>
      var tar :- if format.PlainTar? || format.ZipArchive? then Ok(archive) else Gunzip(host, archive);
      var entries :- if format.ZipArchive? then UnpackZip(host, archive, limits) else Tar.UnpackTar(tar, limits);
      Ok(SplitResult(entries, format, |archive|))
  }

  function Create(host: Host, entries: seq<Entry>, format: Format): Outcome<seq<byte>> {
    var valid :- Validate(entries, DEFAULT_LIMITS);
    if format.ZipArchive? then PackZip(host, valid)
    else
      var tar :- Tar.PackTar(valid);
      Ok(if format.PlainTar? then tar else host.gzip(tar))
  }

  method SplitArchive(host: Host, table: array<Prelude.word>, lowerName: string, archive: seq<byte>, limits: Limits)
    returns (result: Outcome<SplitResult>)
    requires Crc32.IsTable(table)
    ensures result == Split(host, lowerName, archive, limits)
  {
    hide UnpackZip, Tar.UnpackTar, Detect, Crc32.IsTable;
    var detected := Detect(host, lowerName, archive);
    if detected.None? {
      return Err(UnsupportedFile);
    }
    var entries: seq<Entry>;
    if detected.value.ZipArchive? {
      entries :- ReadZipArchive(host, table, archive, limits);
    } else {
      var tar := archive;
      if !detected.value.PlainTar? {
        tar :- Gunzip(host, archive);
      }
      entries :- Tar.ReadTarArchive(tar, limits);
    }
    return Ok(SplitResult(entries, detected.value, |archive|));
  }

  method CreateArchive(host: Host, table: array<Prelude.word>, entries: seq<Entry>, format: Format)
    returns (result: Outcome<seq<byte>>)
    requires Crc32.IsTable(table)
    ensures result == Create(host, entries, format)
  {
    hide Validate, PackZip, Tar.PackTar, Crc32.IsTable;
    var valid :- ValidateEntries(entries, DEFAULT_LIMITS);
    if format.ZipArchive? {
      result := WriteZip(host, table, valid);
    } else {
      var tar :- Tar.WriteTar(valid);
      return Ok(if format.PlainTar? then tar else host.gzip(tar));
    }
  }

  // ----- comparing -----

  type Digest = string

  /** One leaf of a digest tree. */
  datatype Leaf = Leaf(path: Path, digest: Digest)

  function Leaves(entries: seq<Entry>, sha256: seq<byte> -> Digest): (out: Outcome<seq<Leaf>>)
    ensures out.Ok? <==> AllNormalize(entries)
    ensures out.Ok? ==> |out.value| == |entries|
    ensures out.Ok? ==> forall i :: 0 <= i < |entries| ==>
      out.value[i] == Leaf(Normalize(entries[i].path).value, sha256(entries[i].data))
  {
    if entries == [] then Ok([])
    else
      match Normalized(entries[0].path)
      case Err(e) => assert Normalize(entries[0].path).None?; Err(e)
      case Ok(path) =>
        assert AllNormalize(entries) <==> AllNormalize(entries[1..]) by {
          assert forall i :: 0 < i < |entries| ==> entries[i] == entries[1..][i - 1];
        }
        match Leaves(entries[1..], sha256)
        case Err(e) => Err(e)
        case Ok(rest) => Ok([Leaf(path, sha256(entries[0].data))] + rest)
  }

  function ByPath(before: (Path, Path) -> bool): (Leaf, Leaf) -> bool {
    (x: Leaf, y: Leaf) => before(x.path, y.path)
  }

  /** Whether two entry lists have the same digest tree; `before` is the locale's order of paths. */
  function CompareDigestTrees(
      left: seq<Entry>, right: seq<Entry>, sha256: seq<byte> -> Digest, before: (Path, Path) -> bool): Outcome<bool>
  {
    var l :- Leaves(left, sha256);
    var r :- Leaves(right, sha256);
    Ok(Sort(ByPath(before), l) == Sort(ByPath(before), r))
  }

  /** The files an entry list stands for. */
  ghost function Files(entries: seq<Entry>): set<(Path, seq<byte>)>
    requires AllNormalize(entries)
  {
    set i | 0 <= i < |entries| :: (Normalize(entries[i].path).value, entries[i].data)
  }

  ghost predicate CollisionFree(sha256: seq<byte> -> Digest) {
    forall x, y :: sha256(x) == sha256(y) ==> x == y
  }

  lemma {:induction false} LeavesSort(entries: seq<Entry>, sha256: seq<byte> -> Digest, before: (Path, Path) -> bool)
    requires TotalOrder(before) && AllNormalize(entries) && DistinctPaths(NormalForm(entries))
    ensures StrictOrder(ByPath(before)) && Comparable(ByPath(before), Leaves(entries, sha256).value)
  {
    hide Normalize;
    var l, lt := Leaves(entries, sha256).value, ByPath(before);
    assert forall x: Leaf, y: Leaf :: lt(x, y) == before(x.path, y.path);
    forall x: Leaf, y: Leaf, z: Leaf | lt(x, y) && lt(y, z)
      ensures lt(x, z)
    {
      assert before(x.path, y.path) && before(y.path, z.path);
    }
    forall i, j | 0 <= i < j < |l|
      ensures l[i].path != l[j].path
    {
      assert l[i].path == NormalForm(entries)[i].path && l[j].path == NormalForm(entries)[j].path;
    }
  }

  lemma {:induction false} LeafMembers(entries: seq<Entry>, sha256: seq<byte> -> Digest, p: Path, data: seq<byte>)
    requires CollisionFree(sha256) && AllNormalize(entries)
    ensures Leaf(p, sha256(data)) in Leaves(entries, sha256).value <==> (p, data) in Files(entries)
  {
    hide Normalize;
    var l := Leaves(entries, sha256).value;
    if Leaf(p, sha256(data)) in l {
      var i :| 0 <= i < |l| && l[i] == Leaf(p, sha256(data));
      assert entries[i].data == data;
    }
    if (p, data) in Files(entries) {
      var i :| 0 <= i < |entries| && (Normalize(entries[i].path).value, entries[i].data) == (p, data);
      assert l[i] == Leaf(p, sha256(data));
    }
  }

  lemma {:induction false} SameLeaves(left: seq<Entry>, right: seq<Entry>, sha256: seq<byte> -> Digest)
    requires CollisionFree(sha256) && AllNormalize(left) && AllNormalize(right) && Files(left) <= Files(right)
    ensures forall x :: x in Leaves(left, sha256).value ==> x in Leaves(right, sha256).value
  {
    hide Normalize, Files;
    var l := Leaves(left, sha256).value;
    forall x | x in l
      ensures x in Leaves(right, sha256).value
    {
      var i :| 0 <= i < |l| && l[i] == x;
      LeafMembers(left, sha256, x.path, left[i].data);
      LeafMembers(right, sha256, x.path, left[i].data);
    }
  }

  lemma {:induction false} SameFiles(left: seq<Entry>, right: seq<Entry>, sha256: seq<byte> -> Digest)
    requires CollisionFree(sha256) && AllNormalize(left) && AllNormalize(right)
    requires forall x :: x in Leaves(left, sha256).value ==> x in Leaves(right, sha256).value
    ensures Files(left) <= Files(right)
  {
    hide Normalize, Files;
    forall f | f in Files(left)
      ensures f in Files(right)
    {
      LeafMembers(left, sha256, f.0, f.1);
      LeafMembers(right, sha256, f.0, f.1);
    }
  }

  /** The digest-tree comparison says yes exactly for the same set of files, in whatever order they come. */
  lemma {:induction false} CompareMeaning(
      left: seq<Entry>, right: seq<Entry>, sha256: seq<byte> -> Digest, before: (Path, Path) -> bool)
    requires CollisionFree(sha256) && TotalOrder(before)
    requires AllNormalize(left) && DistinctPaths(NormalForm(left))
    requires AllNormalize(right) && DistinctPaths(NormalForm(right))
    ensures CompareDigestTrees(left, right, sha256, before) == Ok(Files(left) == Files(right))
  {
    hide Normalize, Files, DistinctPaths, TotalOrder;
    var l, r, lt := Leaves(left, sha256).value, Leaves(right, sha256).value, ByPath(before);
    LeavesSort(left, sha256, before);
    LeavesSort(right, sha256, before);
    SortMembers(lt, l);
    SortMembers(lt, r);
    if Sort(lt, l) == Sort(lt, r) {
      SameFiles(left, right, sha256);
      SameFiles(right, left, sha256);
    }
    if Files(left) == Files(right) {
      SameLeaves(left, right, sha256);
      SameLeaves(right, left, sha256);
      SortForgetsOrder(lt, l, r);
    }
  }

  // ----- the round trip of all formats -----

  /** What splitting gives back for the validated entries. */
  function Returned(entries: seq<Entry>, format: Format): (out: seq<Entry>)
    requires AllNormalize(entries)
    ensures |out| == |entries|
    ensures forall i :: 0 <= i < |out| ==>
      out[i].path == Normalize(entries[i].path).value && out[i].data == entries[i].data
  {
    if format.ZipArchive? then ZipRoundTrip.AllPlain(entries) else Tar.AllStored(entries)
  }

  ghost predicate TarPathsFit(entries: seq<Entry>) {
    AllNormalize(entries) && forall i :: 0 <= i < |entries| ==> Tar.TarPathFits(Normalize(entries[i].path).value)
  }

  lemma {:induction false} AcceptedAreWritable(entries: seq<Entry>)
    requires Acceptable(entries, DEFAULT_LIMITS) && TarPathsFit(entries)
    ensures Tar.AllFit(NormalForm(entries))
  {
    NormalFormIsStable(entries);
    assert TarField.Pow8(11) == 8 * TarField.Pow8(10) == 0x2_0000_0000 by {
      assert TarField.Pow8(5) == 32768;
      assert TarField.Pow8(10) == 0x4000_0000;
    }
    hide Normalize, Tar.TarPathFits, TarField.Pow8;
    assert forall i :: 0 <= i < |entries| ==> NormalForm(entries)[i].data == entries[i].data;
  }

  lemma {:induction false} PackedTarIsDetected(entries: seq<Entry>)
    requires Tar.AllFit(entries) && Tar.PackTar(entries).Ok?
    ensures LooksLikeTar(Tar.PackTar(entries).value)
  {
    hide Tar.AllFit, Tar.PackTar;
    Tar.PackShape(entries);
    var archive := Tar.PackTar(entries).value;
    if entries != [] {
      var magic := archive[257..262];
      assert archive[257..263][..5] == magic;
      assert Ascii(archive[257..263])[..5] == Tar.USTAR;
    } else {
      assert archive[..512] == archive[0..512];
    }
  }

  /** What split hands on from the archive it was given. */
  lemma {:induction false} SplitTar(host: Host, lowerName: string, tar: seq<byte>, format: Format, limits: Limits)
    requires Lawful(host) && LooksLikeTar(tar) && !format.ZipArchive? && ClaimedFormat(lowerName) == Some(format)
    ensures var archive := if format.PlainTar? then tar else host.gzip(tar);
      Split(host, lowerName, archive, limits) == match Tar.UnpackTar(tar, limits)
        case Err(e) => Err(e)
        case Ok(out) => Ok(SplitResult(out, format, |archive|))
  {
    hide LooksLikeTar, Tar.UnpackTar, ClaimedFormat;
  }

  /**
   * For every entry list and format, splitting an archive that was created succeeds or fails
   * exactly as validating the same entries under the split's own limits; detection never gets
   * in the way, and nothing but mode and time differs.
   */
  lemma {:induction false} RoundTrip(host: Host, entries: seq<Entry>, format: Format, lowerName: string, limits: Limits)
    requires Lawful(host) && Create(host, entries, format).Ok? && Named(lowerName, format)
    requires AllNormalize(entries) && (format.ZipArchive? || TarPathsFit(entries))
    ensures AllNormalize(NormalForm(entries))
    ensures Split(host, lowerName, Create(host, entries, format).value, limits)
      == match Validate(Returned(NormalForm(entries), format), limits)
         case Err(e) => Err(e)
         case Ok(out) => Ok(SplitResult(out, format, |Create(host, entries, format).value|))
  {
    hide Normalize, PackZip, UnpackZip, Tar.PackTar, Tar.UnpackTar, Tar.AllFit;
    hide Acceptable, TarPathsFit, LooksLikeTar, FindEnd, ClaimedFormat, Named;
    NamesAreClaimed(lowerName, format);
    ValidateMeaning(entries, DEFAULT_LIMITS);
    NormalFormIsStable(entries);
    var valid := NormalForm(entries);
    if format.ZipArchive? {
      ZipRoundTrip.ZipRoundTrip(host, valid, limits);
    } else {
      AcceptedAreWritable(entries);
      PackedTarIsDetected(valid);
      Tar.TarRoundTrip(valid, limits);
      SplitTar(host, lowerName, Tar.PackTar(valid).value, format, limits);
    }
  }

  lemma {:induction false} ReturnedIsAcceptable(entries: seq<Entry>, format: Format)
    requires Acceptable(entries, DEFAULT_LIMITS)
    ensures AllNormalize(NormalForm(entries))
    ensures var back := Returned(NormalForm(entries), format);
      && Acceptable(back, DEFAULT_LIMITS) && NormalForm(back) == back && Files(back) == Files(entries)
      && forall i :: 0 <= i < |entries| ==>
           back[i].path == NormalForm(entries)[i].path && back[i].data == entries[i].data
  {
    NormalFormIsStable(entries);
    var valid := NormalForm(entries);
    var back := Returned(valid, format);
    hide Normalize, Returned;
    forall i | 0 <= i < |entries|
      ensures Normalize(back[i].path) == Some(back[i].path) && back[i].path == valid[i].path
      ensures back[i].data == entries[i].data
    {
      assert NormalForm(valid)[i] == valid[i];
    }
    TotalLengthSame(entries, back);
    assert NormalForm(back) == back;
    assert DistinctPaths(back);
    assert Files(back) == Files(entries);
  }

  /**
   * With the default limits the round trip always succeeds: same format, same normalised paths and
   * bytes in the same order, and an equal digest tree.
   */
  lemma {:induction false} RoundTripSucceeds(
      host: Host, entries: seq<Entry>, format: Format, lowerName: string,
      sha256: seq<byte> -> Digest, before: (Path, Path) -> bool)
    requires Lawful(host) && Create(host, entries, format).Ok? && Named(lowerName, format)
    requires CollisionFree(sha256) && TotalOrder(before)
    requires format.ZipArchive? || TarPathsFit(entries)
    ensures AllNormalize(entries)
    ensures var split := Split(host, lowerName, Create(host, entries, format).value, DEFAULT_LIMITS);
      && split.Ok? && split.value.format == format && |split.value.entries| == |entries|
      && (forall i :: 0 <= i < |entries| ==>
            split.value.entries[i].path == NormalForm(entries)[i].path
              && split.value.entries[i].data == entries[i].data)
      && CompareDigestTrees(entries, split.value.entries, sha256, before) == Ok(true)
  {
    hide Normalize, PackZip, Tar.PackTar, Split, Files, Returned, CompareDigestTrees;
    hide TotalOrder, CollisionFree, Lawful, Named, TarPathsFit;
    ValidateMeaning(entries, DEFAULT_LIMITS);
    RoundTrip(host, entries, format, lowerName, DEFAULT_LIMITS);
    ReturnedIsAcceptable(entries, format);
    var back := Returned(NormalForm(entries), format);
    ValidateMeaning(back, DEFAULT_LIMITS);
    CompareMeaning(entries, back, sha256, before);
  }
}
