/** Paths inside archives, as byte sequences, and the normaliser that vets them. */
module ArchivePath {
  import opened Prelude

  type Path = seq<byte>

  const SLASH: byte := 47
  const BACKSLASH: byte := 92
  const DOT: byte := 46
  const COLON: byte := 58

  function Slashed(p: Path): (q: Path)
    ensures |q| == |p|
  {
    seq(|p|, i requires 0 <= i < |p| => if p[i] == BACKSLASH then SLASH else p[i])
  }

  function DropLeadingSlashes(p: Path): Path {
    if p != [] && p[0] == SLASH then DropLeadingSlashes(p[1..]) else p
  }

  /** Removes one leading `./` together with the slashes that follow it. */
  function DropDotSlash(p: Path): Path {
    if |p| >= 2 && p[0] == DOT && p[1] == SLASH then DropLeadingSlashes(p[1..]) else p
  }

  function DropTrailingSlashes(p: Path): Path {
    if p != [] && p[|p| - 1] == SLASH then DropTrailingSlashes(p[..|p| - 1]) else p
  }

  function Split(p: Path): (segments: seq<Path>)
    ensures segments != []
  {
    if p == [] then [[]]
    else
      var rest := Split(p[1..]);
      if p[0] == SLASH then [[]] + rest else [[p[0]] + rest[0]] + rest[1..]
  }

  function NonEmpty(segments: seq<Path>): seq<Path> {
    if segments == [] then []
    else if segments[0] == [] then NonEmpty(segments[1..])
    else [segments[0]] + NonEmpty(segments[1..])
  }

  function Join(segments: seq<Path>): Path {
    if segments == [] then []
    else if |segments| == 1 then segments[0]
    else segments[0] + [SLASH] + Join(segments[1..])
  }

  predicate IsLetter(b: byte) {
    65 <= b <= 90 || 97 <= b <= 122
  }

  predicate HasDrive(p: Path) {
    |p| >= 2 && IsLetter(p[0]) && p[1] == COLON
  }

  predicate IsDots(segment: Path) {
    segment == [DOT] || segment == [DOT, DOT]
  }

  /** The path normaliser; `None` stands for the safety error. */
  function Normalize(raw: Path): Option<Path> {
    var p := DropTrailingSlashes(DropDotSlash(Slashed(raw)));
    var segments := NonEmpty(Split(p));
    if p == [] || p[0] == SLASH || HasDrive(p) || (exists i :: 0 <= i < |segments| && IsDots(segments[i])) then None
    else Some(Join(segments))
  }

  /** A safe relative path in normal form, said without the normaliser. */
  ghost predicate Safe(p: Path) {
    && BACKSLASH !in p
    && !HasDrive(p)
    && forall s :: s in Split(p) ==> s != [] && !IsDots(s)
  }

  ghost predicate SlashFree(segments: seq<Path>) {
    forall i :: 0 <= i < |segments| ==> SLASH !in segments[i]
  }

  lemma {:induction false} SplitSlashFree(p: Path)
    ensures SlashFree(Split(p))
  {
    if p != [] {
      SplitSlashFree(p[1..]);
    }
  }

  /** The first segment is the part of the path before its first slash. */
  lemma {:induction false} FirstSegment(p: Path)
    ensures var s := Split(p)[0];
      |s| <= |p| && p[..|s|] == s && (|s| < |p| ==> p[|s|] == SLASH)
  {
    if p != [] && p[0] != SLASH {
      FirstSegment(p[1..]);
    }
  }

  lemma {:induction false} TrailingSlash(p: Path)
    requires p != [] && p[|p| - 1] == SLASH
    ensures Split(p)[|Split(p)| - 1] == []
  {
    if |p| > 1 {
      TrailingSlash(p[1..]);
      assert p[0] != SLASH ==> |Split(p[1..])| > 1 by {
        if |Split(p[1..])| == 1 {
          FirstSegment(p[1..]);
          OneSegment(p[1..]);
        }
      }
    }
  }

  lemma {:induction false} OneSegment(p: Path)
    requires |Split(p)| == 1
    ensures SLASH !in p
  {
    if p != [] {
      OneSegment(p[1..]);
    }
  }

  lemma {:induction false} SplitSegment(s: Path, tail: Path)
    requires SLASH !in s
    ensures Split(s + [SLASH] + tail) == [s] + Split(tail)
  {
    var p := s + [SLASH] + tail;
    if s == [] {
      assert p[1..] == tail;
    } else {
      assert p[1..] == s[1..] + [SLASH] + tail;
      SplitSegment(s[1..], tail);
      assert [s[0]] + s[1..] == s;
    }
  }

  lemma {:induction false} SplitPlain(s: Path)
    requires SLASH !in s
    ensures Split(s) == [s]
  {
    if s != [] {
      SplitPlain(s[1..]);
      assert [s[0]] + s[1..] == s;
    }
  }

  lemma {:induction false} SplitJoin(segments: seq<Path>)
    requires segments != [] && SlashFree(segments)
    ensures Split(Join(segments)) == segments
  {
    if |segments| == 1 {
      SplitPlain(segments[0]);
    } else {
      SplitJoin(segments[1..]);
      SplitSegment(segments[0], Join(segments[1..]));
    }
  }

  lemma {:induction false} JoinSplit(p: Path)
    ensures Join(Split(p)) == p
  {
    if p != [] {
      JoinSplit(p[1..]);
      var rest := Split(p[1..]);
      if p[0] == SLASH {
        assert Join([[]] + rest) == [] + [SLASH] + Join(rest) by {
          assert ([[]] + rest)[1..] == rest;
        }
      } else if |rest| > 1 {
        var all := [[p[0]] + rest[0]] + rest[1..];
        assert all[1..] == rest[1..];
        assert Join(all) == [p[0]] + Join(rest);
      }
    }
  }

  lemma {:induction false} NonEmptyMembers(segments: seq<Path>)
    ensures forall s :: s in NonEmpty(segments) <==> s in segments && s != []
  {
    if segments != [] {
      NonEmptyMembers(segments[1..]);
      assert segments == [segments[0]] + segments[1..];
    }
  }

  lemma {:induction false} NonEmptyAll(segments: seq<Path>)
    requires [] !in segments
    ensures NonEmpty(segments) == segments
  {
    if segments != [] {
      NonEmptyAll(segments[1..]);
    }
  }

  lemma {:induction false} JoinBytes(segments: seq<Path>, b: byte)
    requires b != SLASH && forall s :: s in segments ==> b !in s
    ensures b !in Join(segments)
  {
    if |segments| > 1 {
      JoinBytes(segments[1..], b);
    }
  }

  lemma {:induction false} SplitBytes(p: Path, b: byte)
    requires b !in p
    ensures forall s :: s in Split(p) ==> b !in s
  {
    if p != [] {
      SplitBytes(p[1..], b);
    }
  }

  lemma {:induction false} DropBytes(p: Path, b: byte)
    requires b !in p
    ensures b !in DropLeadingSlashes(p) && b !in DropTrailingSlashes(p)
  {
    if p != [] {
      DropBytes(p[1..], b);
      DropBytes(p[..|p| - 1], b);
    }
  }

  lemma {:induction false} DropShortens(p: Path)
    ensures |DropLeadingSlashes(p)| <= |p| && |DropTrailingSlashes(p)| <= |p|
    ensures |DropTrailingSlashes(p)| == |p| ==> DropTrailingSlashes(p) == p
  {
    if p != [] {
      DropShortens(p[1..]);
      DropShortens(p[..|p| - 1]);
    }
  }

  /** A path in normal form passes the normaliser untouched. */
  lemma {:induction false} SafeIsFixed(p: Path)
    requires Safe(p)
    ensures Normalize(p) == Some(p)
  {
    var segments := Split(p);
    assert Slashed(p) == p;
    FirstSegment(p);
    assert segments[0] in segments && segments[|segments| - 1] in segments;
    assert p != [] && p[0] != SLASH;
    assert DropDotSlash(p) == p by {
      if |p| >= 2 && p[0] == DOT && p[1] == SLASH {
        SplitSlashFree(p);
      }
    }
    assert DropTrailingSlashes(p) == p by {
      if p[|p| - 1] == SLASH {
        TrailingSlash(p);
      }
    }
    NonEmptyAll(segments);
    JoinSplit(p);
  }

  /** Whatever the normaliser accepts is a safe path in normal form. */
  lemma {:induction false} NormalizeIsSafe(raw: Path)
    requires Normalize(raw).Some?
    ensures Safe(Normalize(raw).value)
  {
    var p := DropTrailingSlashes(DropDotSlash(Slashed(raw)));
    var all := Split(p);
    var segments := NonEmpty(all);
    var q := Join(segments);
    NonEmptyMembers(all);
    SplitSlashFree(p);
    FirstSegment(p);
    assert all[0] != [];
    assert segments[0] == all[0];
    assert SlashFree(segments) by {
      forall i | 0 <= i < |segments| ensures SLASH !in segments[i] {
        assert segments[i] in segments;
      }
    }
    SplitJoin(segments);
    assert BACKSLASH !in q by {
      var s := Slashed(raw);
      assert BACKSLASH !in s;
      if |s| >= 2 {
        DropBytes(s[1..], BACKSLASH);
      }
      DropBytes(DropDotSlash(s), BACKSLASH);
      SplitBytes(p, BACKSLASH);
      JoinBytes(segments, BACKSLASH);
    }
    assert !HasDrive(q) by {
      FirstSegment(q);
      assert p[..|segments[0]|] == q[..|segments[0]|];
    }
    forall s | s in Split(q)
      ensures s != [] && !IsDots(s)
    {
      var i :| 0 <= i < |segments| && segments[i] == s;
    }
  }

  /** Normalising twice changes nothing, and the fixed points are exactly the safe paths. */
  lemma {:induction false} NormalizeIdempotent(raw: Path)
    ensures Normalize(raw).Some? ==> Normalize(Normalize(raw).value) == Normalize(raw)
    ensures Normalize(raw) == Some(raw) <==> Safe(raw)
  {
    if Normalize(raw).Some? {
      NormalizeIsSafe(raw);
      SafeIsFixed(Normalize(raw).value);
    }
    if Safe(raw) {
      SafeIsFixed(raw);
    }
  }

  lemma {:induction false} JoinNonEmptyShortens(segments: seq<Path>)
    ensures |Join(NonEmpty(segments))| <= |Join(segments)|
    ensures |Join(NonEmpty(segments))| == |Join(segments)| && segments != [] && segments[0] != [] ==>
      NonEmpty(segments) == segments
  {
    if segments != [] {
      JoinNonEmptyShortens(segments[1..]);
      var rest := NonEmpty(segments[1..]);
      if segments[0] != [] {
        assert NonEmpty(segments)[1..] == rest;
        if |segments| > 1 && segments[1] == [] {
          assert |segments[1..]| > 1 ==> |Join(segments[1..])| == 1 + |Join(segments[2..])| by {
            assert segments[1..][1..] == segments[2..];
          }
          assert NonEmpty(segments[1..]) == NonEmpty(segments[2..]) by {
            assert segments[1..][1..] == segments[2..];
          }
          JoinNonEmptyShortens(segments[2..]);
        }
      }
    }
  }

  /** A normal form no shorter than a backslash-free input is that input. */
  lemma {:induction false} NormalizeSameLength(raw: Path)
    requires BACKSLASH !in raw && Normalize(raw).Some? && |Normalize(raw).value| == |raw|
    ensures Normalize(raw).value == raw
  {
    assert Slashed(raw) == raw;
    var d := DropDotSlash(raw);
    if |raw| >= 2 {
      DropShortens(raw[1..]);
    }
    DropShortens(d);
    var p := DropTrailingSlashes(d);
    JoinNonEmptyShortens(Split(p));
    JoinSplit(p);
    FirstSegment(p);
    assert d == raw && p == raw;
    JoinNonEmptyShortens(Split(raw));
  }
}
