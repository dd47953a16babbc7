/** Archive entries, safety limits and the bounded validation every split and repack runs. */
module Entries {
  import opened Prelude
  import opened ArchivePath

  /** A regular file. `mtime` is in milliseconds since the epoch. */
  datatype Entry = Entry(path: Path, data: seq<byte>, mode: Option<nat>, mtime: Option<nat>)

  datatype Limits = Limits(maxEntryByteLength: nat, maxEntryCount: nat, maxTotalUnpackedByteLength: nat)

  const DEFAULT_LIMITS := Limits(0x4000_0000, 50_000, 0x4_0000_0000)

  datatype ArchiveError =
    | UnsafePath(path: Path)
    | TooManyEntries
    | DuplicatePath(path: Path)
    | EntryTooLarge(path: Path)
    | TotalTooLarge
    | BadNumber
    | PastEnd(path: Path)
    | UnsupportedType(flag: byte)
    | PathTooLong(path: Path)
    | NoEndOfCentralDirectory
    | BadCentralEntry
    | EncryptedEntry(path: Path)
    | BadLocalHeader(path: Path)
    | UnsupportedMethod(path: Path)
    | FailedCheck(path: Path)
    | OutOfRange
    | CorruptStream
    | UnsupportedFile

  type Outcome<+T> = Result<T, ArchiveError>

  function Normalized(raw: Path): Outcome<Path> {
    match Normalize(raw)
    case Some(p) => Ok(p)
    case None => Err(UnsafePath(raw))
  }

  function TotalLength(entries: seq<Entry>): nat {
    if entries == [] then 0 else |entries[0].data| + TotalLength(entries[1..])
  }

  function ValidateFrom(entries: seq<Entry>, seen: set<Path>, total: nat, limits: Limits): Outcome<seq<Entry>>
    decreases |entries|
  {
    if entries == [] then Ok([])
    else
      var path :- Normalized(entries[0].path);
      if path in seen then Err(DuplicatePath(path))
      else if |entries[0].data| > limits.maxEntryByteLength then Err(EntryTooLarge(path))
      else if total + |entries[0].data| > limits.maxTotalUnpackedByteLength then Err(TotalTooLarge)
      else
        var rest :- ValidateFrom(entries[1..], seen + {path}, total + |entries[0].data|, limits);
        Ok([entries[0].(path := path)] + rest)
  }

  function Validate(entries: seq<Entry>, limits: Limits): Outcome<seq<Entry>> {
    if |entries| > limits.maxEntryCount then Err(TooManyEntries)
    else ValidateFrom(entries, {}, 0, limits)
  }

  /** The validation loop, with its running set of paths and running total. */
  method ValidateEntries(entries: seq<Entry>, limits: Limits) returns (result: Outcome<seq<Entry>>)
    ensures result == Validate(entries, limits)
  {
    hide Normalize;
    if |entries| > limits.maxEntryCount {
      return Err(TooManyEntries);
    }
    var seen: set<Path> := {};
    var total: nat := 0;
    var accepted: seq<Entry> := [];
    assert entries[0..] == entries;
    PrependNothing(ValidateFrom(entries, seen, total, limits));
    for i := 0 to |entries|
      invariant Validate(entries, limits) == Prepend(accepted, ValidateFrom(entries[i..], seen, total, limits))
    {
      var entry := entries[i];
      assert entries[i..][1..] == entries[i + 1..];
      var path :- Normalized(entry.path);
      if path in seen {
        return Err(DuplicatePath(path));
      }
      if |entry.data| > limits.maxEntryByteLength {
        return Err(EntryTooLarge(path));
      }
      total := total + |entry.data|;
      if total > limits.maxTotalUnpackedByteLength {
        return Err(TotalTooLarge);
      }
      PrependTwice(accepted, [entry.(path := path)], ValidateFrom(entries[i + 1..], seen + {path}, total, limits));
      seen := seen + {path};
      accepted := accepted + [entry.(path := path)];
    }
    assert entries[|entries|..] == [];
    assert accepted + [] == accepted;
    return Ok(accepted);
  }

  function Prepend<T>(done: seq<T>, rest: Outcome<seq<T>>): Outcome<seq<T>> {
    match rest
    case Ok(more) => Ok(done + more)
    case Err(e) => Err(e)
  }

  lemma {:induction false} PrependNothing<T>(rest: Outcome<seq<T>>)
    ensures Prepend([], rest) == rest
  {
    if rest.Ok? {
      assert [] + rest.value == rest.value;
    }
  }

  lemma {:induction false} PrependTwice<T>(a: seq<T>, b: seq<T>, rest: Outcome<seq<T>>)
    ensures Prepend(a, Prepend(b, rest)) == Prepend(a + b, rest)
  {
    if rest.Ok? {
      assert a + (b + rest.value) == (a + b) + rest.value;
    }
  }

  // ----- what validation means -----

  ghost predicate AllNormalize(entries: seq<Entry>) {
    forall i :: 0 <= i < |entries| ==> Normalize(entries[i].path).Some?
  }

  function NormalForm(entries: seq<Entry>): (out: seq<Entry>)
    requires AllNormalize(entries)
    ensures |out| == |entries|
    ensures forall i :: 0 <= i < |entries| ==> out[i] == entries[i].(path := Normalize(entries[i].path).value)
  {
    seq(|entries|, i requires 0 <= i < |entries| => entries[i].(path := Normalize(entries[i].path).value))
  }

  ghost predicate DistinctPaths(entries: seq<Entry>) {
    forall i, j :: 0 <= i < j < |entries| ==> entries[i].path != entries[j].path
  }

  ghost predicate Acceptable(entries: seq<Entry>, limits: Limits) {
    && |entries| <= limits.maxEntryCount
    && AllNormalize(entries)
    && DistinctPaths(NormalForm(entries))
    && (forall i :: 0 <= i < |entries| ==> |entries[i].data| <= limits.maxEntryByteLength)
    && TotalLength(entries) <= limits.maxTotalUnpackedByteLength
  }

  ghost predicate AcceptableFrom(entries: seq<Entry>, seen: set<Path>, total: nat, limits: Limits) {
    && AllNormalize(entries)
    && DistinctPaths(NormalForm(entries))
    && (forall i :: 0 <= i < |entries| ==> NormalForm(entries)[i].path !in seen)
    && (forall i :: 0 <= i < |entries| ==> |entries[i].data| <= limits.maxEntryByteLength)
    && total + TotalLength(entries) <= limits.maxTotalUnpackedByteLength
  }

  ghost predicate HeadAcceptable(head: Entry, seen: set<Path>, total: nat, limits: Limits) {
    && Normalize(head.path).Some?
    && Normalize(head.path).value !in seen
    && |head.data| <= limits.maxEntryByteLength
    && total + |head.data| <= limits.maxTotalUnpackedByteLength
  }

  lemma {:induction false} ValidateFromMeaning(entries: seq<Entry>, seen: set<Path>, total: nat, limits: Limits)
    requires total <= limits.maxTotalUnpackedByteLength
    ensures ValidateFrom(entries, seen, total, limits).Ok? <==> AcceptableFrom(entries, seen, total, limits)
    ensures AcceptableFrom(entries, seen, total, limits)
      ==> ValidateFrom(entries, seen, total, limits) == Ok(NormalForm(entries))
    decreases |entries|
  {
    hide Normalize;
    if entries != [] {
      var head, rest := entries[0], entries[1..];
      if HeadAcceptable(head, seen, total, limits) {
        var seen', total' := seen + {Normalize(head.path).value}, total + |head.data|;
        ValidateFromMeaning(rest, seen', total', limits);
        if AcceptableFrom(rest, seen', total', limits) {
          AcceptableCons(entries, seen, total, limits);
        } else if AcceptableFrom(entries, seen, total, limits) {
          AcceptableTail(entries, seen, total, limits);
        }
      } else if AcceptableFrom(entries, seen, total, limits) {
        AcceptableHead(entries, seen, total, limits);
      }
    }
  }

  lemma {:induction false} AcceptableHead(entries: seq<Entry>, seen: set<Path>, total: nat, limits: Limits)
    requires entries != [] && AcceptableFrom(entries, seen, total, limits)
    ensures HeadAcceptable(entries[0], seen, total, limits)
  {
    hide Normalize;
    assert NormalForm(entries)[0].path == Normalize(entries[0].path).value;
  }

  lemma {:induction false} AcceptableTail(entries: seq<Entry>, seen: set<Path>, total: nat, limits: Limits)
    requires entries != [] && AcceptableFrom(entries, seen, total, limits)
    ensures AcceptableFrom(entries[1..], seen + {Normalize(entries[0].path).value}, total + |entries[0].data|, limits)
  {
    hide Normalize;
    var rest := entries[1..];
    assert forall i :: 0 <= i < |rest| ==> rest[i] == entries[i + 1];
    assert forall i :: 0 <= i < |rest| ==> NormalForm(rest)[i] == NormalForm(entries)[i + 1];
  }

  lemma {:induction false} AcceptableCons(entries: seq<Entry>, seen: set<Path>, total: nat, limits: Limits)
    requires entries != [] && HeadAcceptable(entries[0], seen, total, limits)
    requires AcceptableFrom(entries[1..], seen + {Normalize(entries[0].path).value}, total + |entries[0].data|, limits)
    ensures AcceptableFrom(entries, seen, total, limits)
    ensures NormalForm(entries) == [entries[0].(path := Normalize(entries[0].path).value)] + NormalForm(entries[1..])
  {
    hide Normalize;
    var rest := entries[1..];
    assert forall i :: 0 < i < |entries| ==> entries[i] == rest[i - 1];
    assert forall i :: 0 < i < |entries| ==> NormalForm(entries)[i] == NormalForm(rest)[i - 1];
    assert TotalLength(entries) == |entries[0].data| + TotalLength(rest);
    forall i, j | 0 <= i < j < |entries|
      ensures NormalForm(entries)[i].path != NormalForm(entries)[j].path
    {
      if i > 0 {
        assert NormalForm(rest)[i - 1].path != NormalForm(rest)[j - 1].path;
      } else {
        assert NormalForm(rest)[j - 1].path !in seen + {Normalize(entries[0].path).value};
      }
    }
  }

  /**
   * Validation accepts exactly the entry lists whose paths are safe and distinct once normalised
   * and whose count, sizes and total meet the limits; it then only normalises the paths.
   */
  lemma {:induction false} ValidateMeaning(entries: seq<Entry>, limits: Limits)
    ensures Validate(entries, limits).Ok? <==> Acceptable(entries, limits)
    ensures Acceptable(entries, limits) ==> Validate(entries, limits) == Ok(NormalForm(entries))
  {
    ValidateFromMeaning(entries, {}, 0, limits);
  }

  /** What validation returned needs no further change: validating it again under any limits only checks. */
  lemma {:induction false} NormalFormIsStable(entries: seq<Entry>)
    requires AllNormalize(entries)
    ensures AllNormalize(NormalForm(entries)) && NormalForm(NormalForm(entries)) == NormalForm(entries)
    ensures forall i :: 0 <= i < |entries| ==> Safe(NormalForm(entries)[i].path)
  {
    forall i | 0 <= i < |entries|
      ensures Normalize(NormalForm(entries)[i].path) == Some(NormalForm(entries)[i].path)
      ensures Safe(NormalForm(entries)[i].path)
    {
      NormalizeIdempotent(entries[i].path);
      NormalizeIsSafe(entries[i].path);
    }
  }

  lemma {:induction false} TotalLengthSame(a: seq<Entry>, b: seq<Entry>)
    requires |a| == |b| && forall i :: 0 <= i < |a| ==> |a[i].data| == |b[i].data|
    ensures TotalLength(a) == TotalLength(b)
  {
    if a != [] {
      TotalLengthSame(a[1..], b[1..]);
    }
  }

  // ----- why a list is refused -----

  function PathsOf(entries: seq<Entry>): set<Path>
    requires AllNormalize(entries)
  {
    set i | 0 <= i < |entries| :: Normalize(entries[i].path).value
  }

  /** What is wrong with entry `i`, the entries before it being acceptable. */
  ghost predicate RefusedAt(entries: seq<Entry>, i: nat, limits: Limits, e: ArchiveError)
    requires i < |entries|
  {
    match Normalize(entries[i].path)
    case None => e == UnsafePath(entries[i].path)
    case Some(path) =>
      if exists j :: 0 <= j < i && Normalize(entries[j].path) == Some(path) then e == DuplicatePath(path)
      else if |entries[i].data| > limits.maxEntryByteLength then e == EntryTooLarge(path)
      else TotalLength(entries[..i + 1]) > limits.maxTotalUnpackedByteLength && e == TotalTooLarge
  }

  lemma {:induction false} TotalOfMore(entries: seq<Entry>, entry: Entry)
    ensures TotalLength(entries + [entry]) == TotalLength(entries) + |entry.data|
  {
    if entries == [] {
      assert entries + [entry] == [entry];
      assert [entry][1..] == [];
    } else {
      assert (entries + [entry])[1..] == entries[1..] + [entry];
      TotalOfMore(entries[1..], entry);
    }
  }

  lemma {:induction false} PathsOfMore(entries: seq<Entry>, entry: Entry)
    requires AllNormalize(entries) && Normalize(entry.path).Some?
    ensures AllNormalize(entries + [entry])
    ensures PathsOf(entries + [entry]) == PathsOf(entries) + {Normalize(entry.path).value}
  {
    hide Normalize;
    var more := entries + [entry];
    assert forall i :: 0 <= i < |entries| ==> more[i] == entries[i];
    assert more[|entries|] == entry;
    assert PathsOf(more) == PathsOf(entries) + {Normalize(entry.path).value} by {
      forall p | p in PathsOf(entries)
        ensures p in PathsOf(more)
      {
        var i :| 0 <= i < |entries| && Normalize(entries[i].path).value == p;
        assert Normalize(more[i].path).value == p;
      }
    }
  }

  lemma {:induction false} AcceptableMore(entries: seq<Entry>, entry: Entry, limits: Limits)
    requires Acceptable(entries, limits) && |entries| < limits.maxEntryCount
    requires HeadAcceptable(entry, PathsOf(entries), TotalLength(entries), limits)
    ensures Acceptable(entries + [entry], limits)
  {
    hide Normalize;
    PathsOfMore(entries, entry);
    TotalOfMore(entries, entry);
    var more := entries + [entry];
    forall i, j | 0 <= i < j < |more|
      ensures NormalForm(more)[i].path != NormalForm(more)[j].path
    {
      assert more[i] == entries[i];
      if j < |entries| {
        assert NormalForm(entries)[i].path != NormalForm(entries)[j].path;
      } else {
        assert Normalize(entries[i].path).value in PathsOf(entries);
      }
    }
  }

  lemma {:induction false} RefusesFrom(entries: seq<Entry>, i: nat, limits: Limits) returns (k: nat)
    requires i <= |entries| <= limits.maxEntryCount && Acceptable(entries[..i], limits)
    requires ValidateFrom(entries[i..], PathsOf(entries[..i]), TotalLength(entries[..i]), limits).Err?
    ensures i <= k < |entries| && Acceptable(entries[..k], limits)
    ensures RefusedAt(entries, k, limits,
                      ValidateFrom(entries[i..], PathsOf(entries[..i]), TotalLength(entries[..i]), limits).error)
    decreases |entries| - i
  {
    hide Normalize;
    var entry, front := entries[i], entries[..i];
    assert entries[i..][0] == entry && entries[i..][1..] == entries[i + 1..];
    assert entries[..i + 1] == front + [entry];
    TotalOfMore(front, entry);
    k := i;
    if Normalize(entry.path).Some? {
      PathsOfMore(front, entry);
      KnownPath(entries, i);
      hide DistinctPaths, PathsOf, TotalLength;
      if HeadAcceptable(entry, PathsOf(front), TotalLength(front), limits) {
        AcceptableMore(front, entry, limits);
        k := RefusesFrom(entries, i + 1, limits);
      }
    }
  }

  lemma {:induction false} KnownPath(entries: seq<Entry>, i: nat)
    requires i < |entries| && AllNormalize(entries[..i]) && Normalize(entries[i].path).Some?
    ensures var path := Normalize(entries[i].path).value;
      path in PathsOf(entries[..i]) <==> exists j :: 0 <= j < i && Normalize(entries[j].path) == Some(path)
  {
    hide Normalize;
    assert forall j :: 0 <= j < i ==> entries[..i][j] == entries[j];
    assert forall j :: 0 <= j < i ==> Normalize(entries[..i][j].path).Some?;
  }

  /** A refused list has too many entries, or is refused for the first entry that the ones before do not allow. */
  lemma {:induction false} ValidationRefuses(entries: seq<Entry>, limits: Limits) returns (k: nat)
    requires Validate(entries, limits).Err?
    ensures if |entries| > limits.maxEntryCount then Validate(entries, limits).error == TooManyEntries
            else
              && k < |entries| && Acceptable(entries[..k], limits)
              && RefusedAt(entries, k, limits, Validate(entries, limits).error)
  {
    k := 0;
    if |entries| <= limits.maxEntryCount {
      assert entries[0..] == entries && entries[..0] == [] && PathsOf([]) == {};
      k := RefusesFrom(entries, 0, limits);
    }
  }
}
