/** Which files are split, by name and content, and by which reader. */
module ArchiveDetection {
  import opened Prelude
  import opened Bytes
  import opened Entries
  import opened SplitArtifact
  import opened Zip
  import Tar
  import ZipLayout

  /** Whole blocks, at least two, that start with a ustar header or a zero block; text is compared as seven bits. */
  ghost predicate IsTarFile(buffer: seq<byte>) {
    && |buffer| >= 1024 && |buffer| % 512 == 0
    && (|| (forall i :: 0 <= i < 5 ==> buffer[257 + i] % 128 == [117, 115, 116, 97, 114][i])
        || (forall i :: 0 <= i < 512 ==> buffer[i] == 0))
  }

  ghost predicate IsGzipTarFile(host: Host, buffer: seq<byte>) {
    && |buffer| >= 2 && buffer[0] == 0x1f && buffer[1] == 0x8b
    && exists tar :: host.gunzip(buffer) == Some(tar) && IsTarFile(tar)
  }

  /** An end record starts among the last 65,557 bytes, with at least 22 bytes from there on. */
  ghost predicate IsZipFile(buffer: seq<byte>) {
    exists k: nat :: |buffer| - 65_557 <= k <= |buffer| - 22 && At(buffer, k, [0x50, 0x4b, 5, 6])
  }

  ghost predicate Fits(host: Host, format: Format, buffer: seq<byte>) {
    match format
    case PlainTar => IsTarFile(buffer)
    case ZipArchive => IsZipFile(buffer)
    case GzipTar => IsGzipTarFile(host, buffer)
    case UnityPackage => IsGzipTarFile(host, buffer)
  }

  lemma {:induction false} TarFiles(buffer: seq<byte>)
    ensures LooksLikeTar(buffer) <==> IsTarFile(buffer)
  {
    if |buffer| >= 1024 {
      var text, block := Ascii(buffer[257..263]), buffer[0..512];
      assert forall i :: 0 <= i < 5 ==> text[i] == buffer[257 + i] % 128;
      assert Tar.USTAR <= text <==> text[..5] == Tar.USTAR;
      assert forall i :: 0 <= i < 512 ==> block[i] in block && block[i] == buffer[i];
    }
  }

  lemma {:induction false} GzipTarFiles(host: Host, buffer: seq<byte>)
    ensures LooksLikeGzipTar(host, buffer) <==> IsGzipTarFile(host, buffer)
  {
    hide LooksLikeTar, IsTarFile;
    if host.gunzip(buffer).Some? {
      TarFiles(host.gunzip(buffer).value);
    }
  }

  lemma {:induction false} ZipFiles(buffer: seq<byte>)
    ensures FindEnd(buffer).Some? <==> IsZipFile(buffer)
  {
    hide At, Le32, Read32, FindEndFrom;
    FindEndIsLast(buffer, |buffer| - 22);
    ZipLayout.Signatures();
    if FindEnd(buffer).Some? {
      ZipLayout.ReadsSignature(buffer, FindEnd(buffer).value, END_SIGNATURE);
    }
    forall k: nat | |buffer| - 65_557 <= k <= |buffer| - 22 && At(buffer, k, [0x50, 0x4b, 5, 6])
      ensures IsEnd(buffer, k)
    {
      ZipLayout.ReadsSignature(buffer, k, END_SIGNATURE);
    }
  }

  /** A file is detected as a format exactly if it is named for it and its content fits. */
  lemma {:induction false} DetectsExactly(host: Host, lowerName: string, archive: seq<byte>, format: Format)
    ensures Detect(host, lowerName, archive) == Some(format)
       <==> Named(lowerName, format) && Fits(host, format, archive)
  {
    hide Named, ClaimedFormat, IsTarFile, IsGzipTarFile, IsZipFile, LooksLikeTar, LooksLikeGzipTar, FindEnd;
    NamesAreClaimed(lowerName, format);
    TarFiles(archive);
    GzipTarFiles(host, archive);
    ZipFiles(archive);
  }

  /** The entries of a file of this format: tar bytes as they are or unzipped first, or a zip. */
  ghost predicate Opens(host: Host, format: Format, archive: seq<byte>, limits: Limits, out: Outcome<seq<Entry>>) {
    match format
    case PlainTar => out == Tar.UnpackTar(archive, limits)
    case ZipArchive => out == UnpackZip(host, archive, limits)
    case _ => exists tar :: host.gunzip(archive) == Some(tar) && out == Tar.UnpackTar(tar, limits)
  }

  /** A file named for a format that its content fits is unpacked as that format, and its length reported. */
  lemma {:induction false} SplitsAsNamed(
      host: Host, lowerName: string, archive: seq<byte>, format: Format, limits: Limits)
    returns (out: Outcome<seq<Entry>>)
    requires Named(lowerName, format) && Fits(host, format, archive)
    ensures Opens(host, format, archive, limits, out)
    ensures Split(host, lowerName, archive, limits) == match out
      case Err(e) => Err(e)
      case Ok(entries) => Ok(SplitResult(entries, format, |archive|))
  {
    DetectsExactly(host, lowerName, archive, format);
    hide Named, Detect, IsTarFile, IsZipFile, Tar.UnpackTar, UnpackZip;
    if format.PlainTar? {
      out := Tar.UnpackTar(archive, limits);
    } else if format.ZipArchive? {
      out := UnpackZip(host, archive, limits);
    } else {
      var tar :| host.gunzip(archive) == Some(tar) && IsTarFile(tar);
      out := Tar.UnpackTar(tar, limits);
    }
  }

  /** Any other file is refused. */
  lemma {:induction false} OthersAreRefused(host: Host, lowerName: string, archive: seq<byte>, limits: Limits)
    requires forall format :: !(Named(lowerName, format) && Fits(host, format, archive))
    ensures Split(host, lowerName, archive, limits) == Err(UnsupportedFile)
  {
    var detected := Detect(host, lowerName, archive);
    if detected.Some? {
      DetectsExactly(host, lowerName, archive, detected.value);
    }
    hide Named, Fits, Detect;
  }
}
