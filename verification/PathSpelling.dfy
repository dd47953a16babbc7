/** Which spellings of a path the normaliser accepts, and as which path, said without the normaliser. */
module PathSpelling {
  import opened Prelude
  import opened ArchivePath

  predicate IsSeparator(b: byte) {
    b == SLASH || b == BACKSLASH
  }

  ghost predicate Separators(s: Path) {
    forall i :: 0 <= i < |s| ==> IsSeparator(s[i])
  }

  /** A name that stays where it is: not empty, not `.` or `..`, without separators. */
  ghost predicate Plain(segment: Path) {
    segment != [] && !IsDots(segment) && SLASH !in segment && BACKSLASH !in segment
  }

  /** The segments in order, with one or more slashes or backslashes between them and any number behind. */
  ghost predicate Spells(raw: Path, segments: seq<Path>)
    decreases |segments|
  {
    && segments != [] && segments[0] <= raw
    && var rest := raw[|segments[0]|..];
    if |segments| == 1 then Separators(rest)
    else exists n :: 1 <= n <= |rest| && Separators(rest[..n]) && Spells(rest[n..], segments[1..])
  }

  /** The first `k` bytes are nothing, or `.` and one or more separators. */
  ghost predicate Lead(raw: Path, k: nat) {
    k <= |raw| && (k == 0 || (k >= 2 && raw[0] == DOT && Separators(raw[1..k])))
  }

  /** A spelling of a relative path: no `.` or `..` but one at the front, no drive, not from the root. */
  ghost predicate Spelling(raw: Path, k: nat, segments: seq<Path>) {
    && Lead(raw, k) && Spells(raw[k..], segments)
    && (forall i :: 0 <= i < |segments| ==> Plain(segments[i])) && !HasDrive(segments[0])
  }

  // ----- tokens of a slashed path -----

  function Tokens(q: Path): seq<Path> {
    NonEmpty(Split(q))
  }

  ghost predicate Slashes(s: Path) {
    forall i :: 0 <= i < |s| ==> s[i] == SLASH
  }

  lemma {:induction false} TokensSkip(x: Path, q: Path)
    requires Slashes(x)
    ensures Tokens(x + q) == Tokens(q)
  {
    if x == [] {
      assert x + q == q;
    } else {
      assert (x + q)[1..] == x[1..] + q;
      TokensSkip(x[1..], q);
      assert ([[]] + Split(x[1..] + q))[1..] == Split(x[1..] + q);
    }
  }

  lemma {:induction false} TokensFirst(s: Path, q: Path)
    requires s != [] && SLASH !in s
    ensures Tokens(s + [SLASH] + q) == [s] + Tokens(q)
  {
    SplitSegment(s, q);
    assert ([s] + Split(q))[1..] == Split(q);
  }

  lemma {:induction false} TokensOne(s: Path)
    requires s != [] && SLASH !in s
    ensures Tokens(s) == [s]
  {
    SplitPlain(s);
    NonEmptyAll([s]);
  }

  lemma {:induction false} SplitClosed(q: Path)
    ensures Split(q + [SLASH]) == Split(q) + [[]]
  {
    if q == [] {
      assert (q + [SLASH])[1..] == [];
    } else {
      assert (q + [SLASH])[1..] == q[1..] + [SLASH];
      SplitClosed(q[1..]);
    }
  }

  lemma {:induction false} NonEmptyClosed(segments: seq<Path>)
    ensures NonEmpty(segments + [[]]) == NonEmpty(segments)
  {
    if segments == [] {
      assert segments + [[]] == [[]];
    } else {
      assert (segments + [[]])[1..] == segments[1..] + [[]];
      NonEmptyClosed(segments[1..]);
    }
  }

  lemma {:induction false} TokensTrailing(q: Path)
    ensures Tokens(DropTrailingSlashes(q)) == Tokens(q)
  {
    if q != [] && q[|q| - 1] == SLASH {
      var front := q[..|q| - 1];
      TokensTrailing(front);
      assert q == front + [SLASH];
      SplitClosed(front);
      NonEmptyClosed(Split(front));
    }
  }

  /** Dropping trailing slashes keeps everything up to a byte that is no slash. */
  lemma {:induction false} TrailingKeeps(q: Path, i: nat)
    requires i < |q| && q[i] != SLASH
    ensures i < |DropTrailingSlashes(q)| && DropTrailingSlashes(q) <= q
  {
    if q[|q| - 1] == SLASH {
      TrailingKeeps(q[..|q| - 1], i);
    }
  }

  lemma {:induction false} LeadingShape(q: Path)
    ensures var k := |q| - |DropLeadingSlashes(q)|;
      0 <= k && Slashes(q[..k]) && q[k..] == DropLeadingSlashes(q)
      && (k < |q| ==> q[k] != SLASH)
  {
    if q != [] && q[0] == SLASH {
      LeadingShape(q[1..]);
      var k := |q[1..]| - |DropLeadingSlashes(q[1..])|;
      assert q[..k + 1] == [q[0]] + q[1..][..k];
      assert q[k + 1..] == q[1..][k..];
    }
  }

  lemma {:induction false} LeadingSkips(x: Path, q: Path)
    requires Slashes(x) && q != [] && q[0] != SLASH
    ensures DropLeadingSlashes(x + q) == q
  {
    if x == [] {
      assert x + q == q;
    } else {
      assert (x + q)[1..] == x[1..] + q;
      LeadingSkips(x[1..], q);
    }
  }

  lemma {:induction false} SlashedSlice(raw: Path, i: nat, j: nat)
    requires i <= j <= |raw|
    ensures Slashed(raw)[i..j] == Slashed(raw[i..j])
  {
  }

  // ----- one word and what follows it -----

  predicate IsWord(s: Path) {
    s != [] && SLASH !in s && BACKSLASH !in s
  }

  lemma {:induction false} WordAlone(s: Path, rest: Path)
    requires IsWord(s) && Separators(rest)
    ensures Tokens(Slashed(s + rest)) == [s]
  {
    hide Tokens;
    assert Slashed(s + rest) == s + Slashed(rest);
    if rest == [] {
      assert s + Slashed(rest) == s;
      TokensOne(s);
    } else {
      assert s + Slashed(rest) == s + [SLASH] + (Slashed(rest[1..]) + []);
      TokensFirst(s, Slashed(rest[1..]) + []);
      TokensSkip(Slashed(rest[1..]), []);
      NoTokens();
    }
  }

  lemma {:induction false} NoTokens()
    ensures Tokens([]) == []
  {
  }

  lemma {:induction false} WordApart(s: Path, rest: Path, n: nat)
    requires IsWord(s) && 1 <= n <= |rest| && Separators(rest[..n])
    ensures Tokens(Slashed(s + rest)) == [s] + Tokens(Slashed(rest[n..]))
  {
    hide Tokens;
    var between, tail := Slashed(rest[1..n]), Slashed(rest[n..]);
    assert forall i :: 0 <= i < n - 1 ==> rest[1..n][i] == rest[..n][i + 1];
    assert rest[..n][0] == rest[0];
    assert Slashed(s + rest) == s + [SLASH] + (between + tail);
    TokensFirst(s, between + tail);
    TokensSkip(between, tail);
  }

  // ----- a spelling has its segments as tokens -----

  lemma {:induction false} SpellsTokens(raw: Path, segments: seq<Path>)
    requires Spells(raw, segments) && forall i :: 0 <= i < |segments| ==> IsWord(segments[i])
    ensures Tokens(Slashed(raw)) == segments
    decreases |segments|
  {
    var s, rest := segments[0], raw[|segments[0]|..];
    assert IsWord(s) && raw == s + rest;
    hide Tokens, IsWord, Slashed;
    if |segments| == 1 {
      WordAlone(s, rest);
      assert segments == [s];
    } else {
      var n :| 1 <= n <= |rest| && Separators(rest[..n]) && Spells(rest[n..], segments[1..]);
      SpellsTokens(rest[n..], segments[1..]);
      WordApart(s, rest, n);
      assert segments == [s] + segments[1..];
    }
  }

  // ----- a path that does not start with a separator spells its tokens -----

  function LeadLength(s: Path): (n: nat)
    ensures n <= |s| && Separators(s[..n]) && (n < |s| ==> !IsSeparator(s[n]))
  {
    if s == [] || !IsSeparator(s[0]) then 0
    else
      var n := LeadLength(s[1..]);
      assert s[..n + 1] == [s[0]] + s[1..][..n];
      n + 1
  }

  function WordLength(s: Path): (n: nat)
    ensures n <= |s| && (forall i :: 0 <= i < n ==> !IsSeparator(s[i])) && (n < |s| ==> IsSeparator(s[n]))
  {
    if s == [] || IsSeparator(s[0]) then 0 else 1 + WordLength(s[1..])
  }

  lemma {:induction false} SpellsOne(s: Path, rest: Path)
    requires Separators(rest)
    ensures Spells(s + rest, [s])
  {
    assert (s + rest)[|s|..] == rest;
  }

  lemma {:induction false} SpellsMore(s: Path, rest: Path, n: nat, more: seq<Path>)
    requires 1 <= n <= |rest| && Separators(rest[..n]) && Spells(rest[n..], more)
    ensures Spells(s + rest, [s] + more)
  {
    assert (s + rest)[|s|..] == rest && ([s] + more)[1..] == more;
  }

  lemma {:induction false} TokensSpell(raw: Path)
    requires raw != [] && !IsSeparator(raw[0])
    ensures Spells(raw, Tokens(Slashed(raw)))
    decreases |raw|
  {
    hide Tokens, Spells, Slashed;
    var s, rest := raw[..WordLength(raw)], raw[WordLength(raw)..];
    var n := LeadLength(rest);
    assert IsWord(s) && raw == s + rest;
    if n == |rest| {
      assert rest[..n] == rest;
      WordAlone(s, rest);
      SpellsOne(s, rest);
    } else {
      TokensSpell(rest[n..]);
      WordApart(s, rest, n);
      SpellsMore(s, rest, n, Tokens(Slashed(rest[n..])));
    }
  }

  // ----- the normaliser -----

  /** What is left of a spelling after the leading `./`, with slashes only. */
  lemma {:induction false} LeadIsDropped(raw: Path, k: nat)
    requires Lead(raw, k) && k < |raw| && !IsSeparator(raw[k])
    requires k == 0 ==> !(raw[0] == DOT && |raw| > 1 && IsSeparator(raw[1]))
    ensures DropDotSlash(Slashed(raw)) == Slashed(raw[k..])
  {
    var q := Slashed(raw);
    SlashedSlice(raw, k, |raw|);
    if k == 0 {
      assert raw[0..] == raw;
    } else {
      var x := Slashed(raw[1..k]);
      assert Slashes(x);
      assert q[1] == SLASH by {
        assert raw[1..k][0] == raw[1];
      }
      assert q[1..] == x + Slashed(raw[k..]);
      LeadingSkips(x, Slashed(raw[k..]));
    }
  }

  lemma {:induction false} SpellingStarts(raw: Path, k: nat, segments: seq<Path>)
    requires Spelling(raw, k, segments)
    ensures k < |raw| && !IsSeparator(raw[k]) && Spells(raw[k..], segments)
    ensures k == 0 ==> !(raw[0] == DOT && |raw| > 1 && IsSeparator(raw[1]))
    ensures forall i :: 0 <= i < |segments| ==> IsWord(segments[i]) && !IsDots(segments[i])
    ensures segments != [] && !HasDrive(segments[0]) && segments[0] <= raw[k..]
    ensures |segments[0]| < |raw[k..]| ==> IsSeparator(raw[k..][|segments[0]|])
  {
    var s, body := segments[0], raw[k..];
    assert Plain(s);
    assert raw[k] == body[0] == s[0];
    assert forall i :: 0 <= i < |s| ==> body[i] == s[i];
    var rest := body[|s|..];
    if |segments| > 1 {
      var n :| 1 <= n <= |rest| && Separators(rest[..n]) && Spells(rest[n..], segments[1..]);
      assert rest[..n][0] == rest[0] == body[|s|];
    }
    assert k == 0 ==> body == raw;
    assert |s| > 1 ==> s[1] in s;
  }

  /** A path starts with a drive exactly if its first segment does. */
  lemma {:induction false} DriveIsFirst(q: Path, s: Path)
    requires s != [] && s <= q && (|s| < |q| ==> q[|s|] == SLASH)
    ensures HasDrive(q) <==> HasDrive(s)
  {
  }

  lemma {:induction false} SpellingNormalizes(raw: Path, k: nat, segments: seq<Path>)
    requires Spelling(raw, k, segments)
    ensures Normalize(raw) == Some(Join(segments))
  {
    SpellingStarts(raw, k, segments);
    LeadIsDropped(raw, k);
    var q, s := Slashed(raw[k..]), segments[0];
    var p := DropTrailingSlashes(q);
    assert q[0] == raw[k];
    SpellsTokens(raw[k..], segments);
    TokensTrailing(q);
    assert IsWord(s) && s[|s| - 1] in s;
    assert q[|s| - 1] == s[|s| - 1];
    TrailingKeeps(q, |s| - 1);
    assert s <= q;
    assert s <= p;
    hide Spells, Spelling, DropTrailingSlashes, DropDotSlash, Split, NonEmpty, Join;
    DriveIsFirst(p, s);
  }

  lemma {:induction false} TrailingPrefix(q: Path)
    ensures DropTrailingSlashes(q) <= q
  {
    if q != [] && q[|q| - 1] == SLASH {
      TrailingPrefix(q[..|q| - 1]);
    }
  }

  /** Where the first segment of an accepted path starts. */
  lemma {:induction false} LeadOf(raw: Path) returns (k: nat)
    requires Normalize(raw).Some?
    ensures Lead(raw, k) && k < |raw| && !IsSeparator(raw[k]) && DropDotSlash(Slashed(raw)) == Slashed(raw[k..])
  {
    hide Split, NonEmpty, Join, HasDrive;
    var q := Slashed(raw);
    k := 0;
    if |q| >= 2 && q[0] == DOT && q[1] == SLASH {
      LeadingShape(q[1..]);
      k := |q| - |DropLeadingSlashes(q[1..])|;
      assert q[1..][..k - 1] == q[1..k];
      assert forall i :: 0 <= i < k - 1 ==> q[1..k][i] == q[i + 1] && raw[1..k][i] == raw[i + 1];
    }
    TrailingPrefix(DropDotSlash(q));
    assert DropDotSlash(q) == q[k..];
    SlashedSlice(raw, k, |raw|);
    assert q[k..][0] == q[k];
  }

  lemma {:induction false} TokensArePlain(q: Path)
    requires BACKSLASH !in q && q != [] && q[0] != SLASH
    ensures Tokens(q) != [] && Tokens(q)[0] <= q && (|Tokens(q)[0]| < |q| ==> q[|Tokens(q)[0]|] == SLASH)
    ensures forall i :: 0 <= i < |Tokens(q)| ==> IsWord(Tokens(q)[i])
  {
    FirstSegment(q);
    NonEmptyMembers(Split(q));
    SplitSlashFree(q);
    SplitBytes(q, BACKSLASH);
    assert Split(q)[0] != [];
    forall i | 0 <= i < |Tokens(q)|
      ensures IsWord(Tokens(q)[i])
    {
      assert Tokens(q)[i] in Tokens(q);
    }
  }

  lemma {:induction false} AcceptedIsSpelling(raw: Path) returns (k: nat, segments: seq<Path>)
    requires Normalize(raw).Some?
    ensures Spelling(raw, k, segments) && Normalize(raw).value == Join(segments)
  {
    k := LeadOf(raw);
    var q := Slashed(raw[k..]);
    var p := DropTrailingSlashes(q);
    segments := Tokens(q);
    TokensSpell(raw[k..]);
    TokensTrailing(q);
    TrailingPrefix(q);
    TokensArePlain(p);
    DriveIsFirst(p, segments[0]);
    assert forall i :: 0 <= i < |segments| ==> Plain(segments[i]) by {
      hide Split, NonEmpty, DropTrailingSlashes, DropDotSlash, Spells;
    }
  }

  /**
   * The normaliser accepts exactly the spellings of relative paths, each as its segments joined by
   * single slashes.
   */
  lemma {:induction false} NormalizesExactly(raw: Path, p: Path)
    ensures Normalize(raw) == Some(p) <==> exists k, segments :: Spelling(raw, k, segments) && p == Join(segments)
  {
    hide Normalize, Spelling;
    if Normalize(raw).Some? {
      var k, segments := AcceptedIsSpelling(raw);
    }
    forall k, segments | Spelling(raw, k, segments)
      ensures Normalize(raw) == Some(Join(segments))
    {
      SpellingNormalizes(raw, k, segments);
    }
  }
}
