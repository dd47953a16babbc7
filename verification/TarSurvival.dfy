/** Which entry lists come back from a tar archive with the paths they went in under. */
module TarSurvival {
  import opened Prelude
  import opened Bytes
  import opened ArchivePath
  import opened Entries
  import opened Tar
  import opened TarField

  ghost predicate SamePaths(out: seq<Entry>, entries: seq<Entry>)
    requires AllNormalize(entries)
  {
    |out| == |entries| && forall i :: 0 <= i < |out| ==> out[i].path == Normalize(entries[i].path).value
  }

  ghost predicate AllSizesFit(entries: seq<Entry>) {
    forall i :: 0 <= i < |entries| ==> |entries[i].data| < Pow8(11)
  }

  lemma {:induction false} HeaderPath(entry: Entry)
    requires TarHeader(entry).Ok?
    ensures var h, path := TarHeader(entry).value, Normalize(entry.path).value;
      |h| == BLOCK && |PrefixPart(path)| <= 155 && RawPath(h) == StoredPath(path) && h[156] == REGULAR
  {
    hide TarHeader, Normalize, CutAtNul, NamePart, PrefixPart;
    WrittenFields(entry);
  }

  /** A header written for a path that does not fit is unreadable or gives another path. */
  lemma {:induction false} UnfitHeader(entry: Entry)
    requires TarHeader(entry).Ok? && !TarPathFits(Normalize(entry.path).value)
    ensures var h := TarHeader(entry).value;
      |h| == BLOCK && !IsZeroBlock(h)
      && var info := ReadHeader(h);
      info.Ok? ==> info.value.path != Normalize(entry.path).value && info.value.flag == REGULAR
  {
    hide Normalize, Safe, StoredPath, RawPath, NumberField, TarPathFits, HeaderBytes;
    NormalizeIsSafe(entry.path);
    HeaderPath(entry);
    HeaderIsNotZero(entry);
    StoredPathSurvives(Normalize(entry.path).value);
  }

  lemma {:induction false} ReadUnfit(buffer: seq<byte>, offset: nat, entry: Entry, rest: seq<byte>)
    requires TarHeader(entry).Ok? && !TarPathFits(Normalize(entry.path).value)
    requires At(buffer, offset, EntryBlock(entry).value + rest)
    ensures var out := ReadTar(buffer, offset);
      out.Ok? ==> out.value != [] && out.value[0].path != Normalize(entry.path).value
  {
    hide TarHeader, ReadHeader, Normalize, TarPathFits, IsZeroBlock;
    var header := TarHeader(entry).value;
    var tail := entry.data + Zeros(PadLength(|entry.data|) - |entry.data|) + rest;
    UnfitHeader(entry);
    assert EntryBlock(entry).value + rest == header + tail;
    AtConcat(buffer, offset, header, tail);
  }

  lemma {:induction false} PackParts(entries: seq<Entry>)
    requires entries != [] && AllNormalize(entries) && AllSizesFit(entries) && PackTar(entries).Ok?
    ensures TarHeader(entries[0]).Ok? && |entries[0].data| < Pow8(11)
    ensures AllNormalize(entries[1..]) && AllSizesFit(entries[1..]) && PackTar(entries[1..]).Ok?
    ensures PackTar(entries).value == EntryBlock(entries[0]).value + PackTar(entries[1..]).value
    ensures AllFit(entries) <==> TarPathFits(Normalize(entries[0].path).value) && AllFit(entries[1..])
  {
    hide TarHeader, Normalize, Block, TarPathFits, Pow8;
    assert forall i :: 0 < i < |entries| ==> entries[i] == entries[1..][i - 1];
  }

  lemma {:induction false} SamePathsTail(first: Entry, rest: seq<Entry>, entries: seq<Entry>)
    requires entries != [] && AllNormalize(entries) && AllNormalize(entries[1..])
    ensures SamePaths([first] + rest, entries) ==> SamePaths(rest, entries[1..])
  {
    hide Normalize;
    var out := [first] + rest;
    assert forall i :: 0 <= i < |rest| ==> rest[i] == out[i + 1];
    assert forall i :: 0 <= i < |entries| - 1 ==> entries[1..][i] == entries[i + 1];
  }

  /** Reading fails or gives other paths as soon as one path does not fit. */
  lemma {:induction false} ReadPackedUnfit(buffer: seq<byte>, offset: nat, entries: seq<Entry>)
    requires AllNormalize(entries) && AllSizesFit(entries) && PackTar(entries).Ok? && !AllFit(entries)
    requires At(buffer, offset, PackTar(entries).value)
    ensures ReadTar(buffer, offset).Ok? ==> !SamePaths(ReadTar(buffer, offset).value, entries)
    decreases |entries|
  {
    if entries == [] {
      assert false;
    } else {
      hide TarHeader, EntryBlock, ReadTar, Stored, AllFit, At, Normalize, TarPathFits, AllSizesFit;
      var entry, others := entries[0], entries[1..];
      PackParts(entries);
      if TarPathFits(Normalize(entry.path).value) {
        ReadOne(buffer, offset, entry, PackTar(others).value);
        var next := offset + BLOCK + PadLength(|entry.data|);
        ReadPackedUnfit(buffer, next, others);
        if ReadTar(buffer, next).Ok? {
          SamePathsTail(Stored(entry), ReadTar(buffer, next).value, entries);
        }
      } else {
        ReadUnfit(buffer, offset, entry, PackTar(others).value);
      }
    }
  }

  lemma {:induction false} FittingComeBack(entries: seq<Entry>, limits: Limits)
    requires AllFit(entries) && PackTar(entries).Ok? && Acceptable(AllStored(entries), limits)
    ensures UnpackTar(PackTar(entries).value, limits).Ok?
    ensures SamePaths(UnpackTar(PackTar(entries).value, limits).value, entries)
  {
    hide Normalize, UnpackTar, PackTar, Acceptable;
    TarRoundTrip(entries, limits);
    ValidateMeaning(AllStored(entries), limits);
    forall i | 0 <= i < |entries|
      ensures Normalize(Normalize(entries[i].path).value) == Normalize(entries[i].path)
    {
      NormalizeIdempotent(entries[i].path);
    }
  }

  /**
   * Of all archives the packer writes, under limits the entries meet, exactly those come back with
   * their paths whose every path fits a header.
   */
  lemma {:induction false} ArchiveSurvives(entries: seq<Entry>, limits: Limits)
    requires AllNormalize(entries) && AllSizesFit(entries) && PackTar(entries).Ok?
    requires Acceptable(AllStored(entries), limits)
    ensures var out := UnpackTar(PackTar(entries).value, limits);
      AllFit(entries) <==> out.Ok? && SamePaths(out.value, entries)
  {
    hide *;
    var archive := PackTar(entries).value;
    if AllFit(entries) {
      FittingComeBack(entries, limits);
    } else {
      WholeIsAt(archive);
      ReadPackedUnfit(archive, 0, entries);
      if UnpackTar(archive, limits).Ok? {
        UnpackedIsRead(archive, limits);
      }
    }
  }

  lemma {:induction false} WholeIsAt(archive: seq<byte>)
    ensures At(archive, 0, archive)
  {
  }
}
