/** When an archive can be created at all, and that every created archive splits back into its entries. */
module ArchiveCreation {
  import opened Prelude
  import opened ArchivePath
  import opened Entries
  import opened SplitArtifact
  import opened Zip
  import Crc32
  import Sorting
  import Tar
  import TarField
  import TarSurvival

  /** Every path is its own normal form. */
  ghost predicate Normal(entries: seq<Entry>) {
    forall i :: 0 <= i < |entries| ==> Normalize(entries[i].path) == Some(entries[i].path)
  }

  /** Bytes before the zip directory: a 30-byte header, the name and the compressed data of each entry. */
  function LocalBytes(host: Host, entries: seq<Entry>): nat {
    if entries == [] then 0
    else 30 + |entries[0].path| + |host.deflate(entries[0].data)| + LocalBytes(host, entries[1..])
  }

  /** Bytes of the zip directory: a 46-byte record and the name of each entry. */
  function DirectoryBytes(entries: seq<Entry>): nat {
    if entries == [] then 0 else 46 + |entries[0].path| + DirectoryBytes(entries[1..])
  }

  /** What has to fit into a 16-bit field, and the file size, which has 32 bits. */
  ghost predicate FieldsFit(host: Host, entry: Entry) {
    && |entry.path| < U16 && host.dosTime(entry.mtime) < U16 && host.dosDate(entry.mtime) < U16
    && |entry.data| < U32
  }

  ghost predicate AllFieldsFit(host: Host, entries: seq<Entry>) {
    forall i :: 0 <= i < |entries| ==> FieldsFit(host, entries[i])
  }

  lemma {:induction false} PartsExactly(host: Host, entry: Entry, offset: nat)
    requires Normalize(entry.path) == Some(entry.path)
    ensures PartsOf(host, entry, offset).Ok?
       <==> FieldsFit(host, entry) && |host.deflate(entry.data)| < U32 && offset < U32
    ensures var parts := PartsOf(host, entry, offset);
      parts.Ok? ==> |parts.value.locals| == 30 + |entry.path| + |host.deflate(entry.data)|
                    && |parts.value.central| == 46 + |entry.path|
  {
    hide Normalize, Crc32.Checksum;
    Crc32.ChecksumWord(entry.data);
  }

  lemma {:induction false} NormalRest(host: Host, entries: seq<Entry>)
    requires entries != [] && Normal(entries)
    ensures Normalize(entries[0].path) == Some(entries[0].path) && Normal(entries[1..])
    ensures AllFieldsFit(host, entries) <==> FieldsFit(host, entries[0]) && AllFieldsFit(host, entries[1..])
  {
    hide Normalize, FieldsFit;
    assert forall i :: 0 < i < |entries| ==> entries[i] == entries[1..][i - 1];
  }

  /** Packing goes through only if the fields fit, and then takes the bytes counted. */
  lemma {:induction false} PackedSizes(host: Host, entries: seq<Entry>, offset: nat)
    requires Normal(entries) && PackFrom(host, entries, offset).Ok?
    ensures AllFieldsFit(host, entries)
    ensures |PackFrom(host, entries, offset).value.locals| == LocalBytes(host, entries)
    ensures |PackFrom(host, entries, offset).value.central| == DirectoryBytes(entries)
    decreases |entries|
  {
    hide Normal, AllFieldsFit, FieldsFit, PartsOf;
    if entries == [] {
      NoFields(host);
    } else {
      NormalRest(host, entries);
      PartsExactly(host, entries[0], offset);
      PackedSizes(host, entries[1..], offset + |PartsOf(host, entries[0], offset).value.locals|);
    }
  }

  lemma {:induction false} NoFields(host: Host)
    ensures AllFieldsFit(host, [])
  {
  }

  lemma {:induction false} PacksWithin(host: Host, entries: seq<Entry>, offset: nat)
    requires Normal(entries) && AllFieldsFit(host, entries) && offset + LocalBytes(host, entries) < U32
    ensures PackFrom(host, entries, offset).Ok?
    decreases |entries|
  {
    hide Normal, AllFieldsFit, FieldsFit, PartsOf;
    if entries != [] {
      NormalRest(host, entries);
      PartsExactly(host, entries[0], offset);
      PacksWithin(host, entries[1..], offset + |PartsOf(host, entries[0], offset).value.locals|);
    }
  }

  /** Count, fields, and both running totals within the widths of the format. */
  ghost predicate ZipFits(host: Host, entries: seq<Entry>) {
    && |entries| < U16 && AllFieldsFit(host, entries)
    && LocalBytes(host, entries) < U32 && DirectoryBytes(entries) < U32
  }

  lemma {:induction false} PackZipExactly(host: Host, entries: seq<Entry>)
    requires Normal(entries)
    ensures PackZip(host, entries).Ok? <==> ZipFits(host, entries)
  {
    hide Normal, AllFieldsFit, PackFrom;
    if PackFrom(host, entries, 0).Ok? {
      PackedSizes(host, entries, 0);
    }
    if ZipFits(host, entries) {
      PacksWithin(host, entries, 0);
    }
  }

  /** A ustar header has 256 bytes for a path, counting the one it drops. */
  predicate TarFits(entries: seq<Entry>) {
    forall i :: 0 <= i < |entries| ==> |entries[i].path| <= 256
  }

  lemma {:induction false} PackTarExactly(entries: seq<Entry>)
    requires Normal(entries)
    ensures Tar.PackTar(entries).Ok? <==> TarFits(entries)
    decreases |entries|
  {
    hide Normalize, Tar.HeaderBytes, Tar.FrontOf, Tar.HeaderBack, Tar.Block;
    if entries != [] {
      PackTarExactly(entries[1..]);
      assert forall i :: 0 < i < |entries| ==> entries[i] == entries[1..][i - 1];
    }
  }

  /** Said of the entries as the caller hands them over; at most 1 GiB each, 50,000 of them, and 16 GiB in all. */
  ghost predicate Creatable(host: Host, entries: seq<Entry>, format: Format) {
    && Acceptable(entries, Limits(0x4000_0000, 50_000, 0x4_0000_0000))
    && if format.ZipArchive? then ZipFits(host, NormalForm(entries)) else TarFits(NormalForm(entries))
  }

  /** Creating an archive succeeds exactly for acceptable entries that fit the fields of the format. */
  lemma {:induction false} CreateExactly(host: Host, entries: seq<Entry>, format: Format)
    ensures Create(host, entries, format).Ok? <==> Creatable(host, entries, format)
  {
    hide Normalize, PackZip, Tar.PackTar, Acceptable, ZipFits, TarFits;
    ValidateMeaning(entries, DEFAULT_LIMITS);
    if Acceptable(entries, DEFAULT_LIMITS) {
      assert AllNormalize(entries) by {
        AcceptableNormalizes(entries);
      }
      var valid := NormalForm(entries);
      NormalFormIsStable(entries);
      assert forall i :: 0 <= i < |valid| ==> NormalForm(valid)[i] == valid[i];
      PackZipExactly(host, valid);
      PackTarExactly(valid);
    }
  }

  lemma {:induction false} PackTarRefuses(entries: seq<Entry>) returns (k: nat)
    requires Normal(entries) && Tar.PackTar(entries).Err?
    ensures k < |entries| && |entries[k].path| > 256 && TarFits(entries[..k])
    ensures Tar.PackTar(entries) == Err(PathTooLong(entries[k].path))
    decreases |entries|
  {
    hide Normalize, Tar.HeaderBytes, Tar.FrontOf, Tar.HeaderBack, Tar.Block;
    k := 0;
    if |entries[0].path| <= 256 {
      assert forall i :: 0 < i < |entries| ==> entries[i] == entries[1..][i - 1];
      k := PackTarRefuses(entries[1..]);
      assert forall i :: 0 <= i < k ==> entries[1..][..k][i] == entries[..k + 1][i + 1];
      k := k + 1;
    }
  }

  lemma {:induction false} PackFromRefuses(host: Host, entries: seq<Entry>, offset: nat)
    requires Normal(entries) && PackFrom(host, entries, offset).Err?
    ensures PackFrom(host, entries, offset) == Err(OutOfRange)
    decreases |entries|
  {
    hide Normal, FieldsFit, AllFieldsFit, Fits, FactsOf, LocalHeader, CentralHeader, Normalize;
    NormalRest(host, entries);
    if PartsOf(host, entries[0], offset).Ok? {
      PackFromRefuses(host, entries[1..], offset + |PartsOf(host, entries[0], offset).value.locals|);
    }
  }

  /**
   * An archive that is not created is refused by validation, for the first path that is too long for a
   * tar header, or because a number does not fit its zip field.
   */
  lemma {:induction false} CreateRefuses(host: Host, entries: seq<Entry>, format: Format) returns (k: nat)
    requires Create(host, entries, format).Err?
    ensures var error := Create(host, entries, format).error;
      if !Acceptable(entries, DEFAULT_LIMITS) then Validate(entries, DEFAULT_LIMITS) == Err(error)
      else if format.ZipArchive? then error == OutOfRange
      else
        var valid := NormalForm(entries);
        k < |valid| && |valid[k].path| > 256 && TarFits(valid[..k]) && error == PathTooLong(valid[k].path)
  {
    hide Normalize, PackFrom, Tar.PackTar, Acceptable, TarFits, Validate;
    k := 0;
    ValidateMeaning(entries, DEFAULT_LIMITS);
    if Acceptable(entries, DEFAULT_LIMITS) {
      AcceptableNormalizes(entries);
      var valid := NormalForm(entries);
      NormalFormIsStable(entries);
      assert forall i :: 0 <= i < |valid| ==> NormalForm(valid)[i] == valid[i];
      if format.ZipArchive? {
        if PackFrom(host, valid, 0).Err? {
          PackFromRefuses(host, valid, 0);
        }
      } else {
        k := PackTarRefuses(valid);
      }
    }
  }

  lemma {:induction false} AcceptableNormalizes(entries: seq<Entry>)
    requires Acceptable(entries, DEFAULT_LIMITS)
    ensures AllNormalize(entries)
  {
  }

  /**
   * From the entries alone: if they are acceptable and fit, creating succeeds, and so does
   * splitting the archive, into the same paths and bytes in the same order.
   */
  lemma {:induction false} CreatedComesBack(
      host: Host, entries: seq<Entry>, format: Format, lowerName: string,
      sha256: seq<byte> -> Digest, before: (Path, Path) -> bool)
    requires Lawful(host) && Named(lowerName, format)
    requires CollisionFree(sha256) && Sorting.TotalOrder(before)
    requires Creatable(host, entries, format) && (format.ZipArchive? || TarPathsFit(entries))
    ensures AllNormalize(entries) && Create(host, entries, format).Ok?
    ensures var split := SplitArtifact.Split(host, lowerName, Create(host, entries, format).value, DEFAULT_LIMITS);
      && split.Ok? && split.value.format == format && |split.value.entries| == |entries|
      && (forall i :: 0 <= i < |entries| ==>
            split.value.entries[i].path == NormalForm(entries)[i].path
              && split.value.entries[i].data == entries[i].data)
      && CompareDigestTrees(entries, split.value.entries, sha256, before) == Ok(true)
  {
    hide *;
    CreateExactly(host, entries, format);
    RoundTripSucceeds(host, entries, format, lowerName, sha256, before);
  }

  /** Whatever splitting returns is what unpacking the tar returned. */
  lemma {:induction false} SplitIsUnpack(host: Host, lowerName: string, tar: seq<byte>, format: Format, limits: Limits)
    requires Lawful(host) && !format.ZipArchive? && ClaimedFormat(lowerName) == Some(format)
    ensures var archive := if format.PlainTar? then tar else host.gzip(tar);
      var split := SplitArtifact.Split(host, lowerName, archive, limits);
      split.Ok? ==> Tar.UnpackTar(tar, limits) == Ok(split.value.entries)
  {
    hide Tar.UnpackTar, ClaimedFormat, LooksLike;
  }

  lemma {:induction false} FitsAfterNormalising(entries: seq<Entry>)
    requires Acceptable(entries, DEFAULT_LIMITS)
    ensures AllNormalize(NormalForm(entries)) && TarSurvival.AllSizesFit(NormalForm(entries))
    ensures TarPathsFit(entries) <==> Tar.AllFit(NormalForm(entries))
  {
    var valid := NormalForm(entries);
    NormalFormIsStable(entries);
    assert TarField.Pow8(11) == 8 * TarField.Pow8(10) == 0x2_0000_0000 by {
      assert TarField.Pow8(5) == 32768;
      assert TarField.Pow8(10) == 0x4000_0000;
    }
    hide Normalize, Tar.TarPathFits, TarField.Pow8, Safe;
    forall i | 0 <= i < |entries|
      ensures Normalize(valid[i].path) == Normalize(entries[i].path) && valid[i].data == entries[i].data
    {
      assert NormalForm(valid)[i] == valid[i];
    }
  }

  lemma {:induction false} CreatedTar(host: Host, entries: seq<Entry>, format: Format)
    requires Creatable(host, entries, format) && !format.ZipArchive?
    ensures AllNormalize(entries) && Tar.PackTar(NormalForm(entries)).Ok?
    ensures var tar := Tar.PackTar(NormalForm(entries)).value;
      Create(host, entries, format) == Ok(if format.PlainTar? then tar else host.gzip(tar))
  {
    hide Normalize, Tar.PackTar;
    CreateExactly(host, entries, format);
    ValidateMeaning(entries, DEFAULT_LIMITS);
  }

  /**
   * Of the tar archives that can be created, splitting gives back the paths of exactly those whose
   * every path fits a header.
   */
  lemma {:induction false} SplitSurvives(host: Host, entries: seq<Entry>, format: Format, lowerName: string)
    requires Lawful(host) && Named(lowerName, format) && !format.ZipArchive?
    requires Creatable(host, entries, format)
    ensures AllNormalize(entries) && AllNormalize(NormalForm(entries)) && Create(host, entries, format).Ok?
    ensures var split := SplitArtifact.Split(host, lowerName, Create(host, entries, format).value, DEFAULT_LIMITS);
      TarPathsFit(entries) <==> split.Ok? && TarSurvival.SamePaths(split.value.entries, NormalForm(entries))
  {
    CreatedTar(host, entries, format);
    NamesAreClaimed(lowerName, format);
    hide Named, Normalize, Tar.PackTar, Tar.UnpackTar, Tar.AllFit, ClaimedFormat, LooksLikeTar, SplitArtifact.Split,
      Lawful;
    hide TarSurvival.AllSizesFit, TarSurvival.SamePaths, TarPathsFit, Acceptable, Create;
    var valid := NormalForm(entries);
    var tar := Tar.PackTar(valid).value;
    FitsAfterNormalising(entries);
    ReturnedIsAcceptable(entries, format);
    TarSurvival.ArchiveSurvives(valid, DEFAULT_LIMITS);
    SplitIsUnpack(host, lowerName, tar, format, DEFAULT_LIMITS);
    if TarPathsFit(entries) {
      PackedTarIsDetected(valid);
      SplitTar(host, lowerName, tar, format, DEFAULT_LIMITS);
    }
  }
}
