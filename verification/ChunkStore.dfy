/** The deduplicating chunk repository: ingest stores each chunk once, restore concatenates terms. */
module ChunkStore {
  import opened Prelude
  import opened Chunking
  import opened Sorting

  type Digest = string

  datatype Term = Term(xorbHash: Digest, startChunkIndex: nat, endChunkIndex: nat)

  datatype DigestValue = DigestValue(algorithm: string, value: string)

  /** `description` stands for the asset version, path and file name kept for display only. */
  datatype Manifest = Manifest(description: string, digests: seq<DigestValue>, logicalByteLength: nat, terms: seq<Term>)

  datatype Request = Request(buffer: seq<byte>, sourceDigests: seq<DigestValue>, description: string)

  datatype Evidence = Evidence(
    fileId: Digest, terms: seq<Term>, uploaded: seq<Digest>, deduplicated: seq<Digest>, digests: seq<DigestValue>,
    logicalByteLength: nat, storedByteLength: nat, chunkCount: nat, reusedChunkCount: nat)

  /** The digest of a buffer and of the JSON text that names a file. */
  datatype Hashes = Hashes(sha256: seq<byte> -> Digest, fileHash: (seq<DigestValue>, nat, seq<Term>) -> Digest)

  ghost predicate CollisionFree(h: Hashes) {
    && (forall x, y :: h.sha256(x) == h.sha256(y) ==> x == y)
    && (forall d, n, t, d', n', t' :: h.fileHash(d, n, t) == h.fileHash(d', n', t') ==> d == d' && n == n' && t == t')
  }

  type Store = map<Digest, seq<byte>>

  datatype Repository = Repository(chunks: Store, manifests: map<Digest, Manifest>)

  // ----- ingest -----

  /** The lists and totals the ingest loop builds, together with the chunk files written so far. */
  datatype Progress = Progress(store: Store, terms: seq<Term>, uploaded: seq<Digest>, reused: seq<Digest>, stored: nat)

  function PutChunk(h: Hashes, p: Progress, chunk: seq<byte>, index: nat): Progress {
    var hash := h.sha256(chunk);
    var terms := p.terms + [Term(hash, index, index + 1)];
    if hash in p.store then p.(terms := terms, reused := p.reused + [hash])
    else Progress(p.store[hash := chunk], terms, p.uploaded + [hash], p.reused, p.stored + |chunk|)
  }

  function PutAll(h: Hashes, p: Progress, chunks: seq<seq<byte>>): Progress
    decreases |chunks|
  {
    if chunks == [] then p
    else PutChunk(h, PutAll(h, p, chunks[..|chunks| - 1]), chunks[|chunks| - 1], |chunks| - 1)
  }

  function NormalizeDigests(h: Hashes, request: Request): seq<DigestValue> {
    if exists d :: d in request.sourceDigests && d.algorithm == "sha256" then request.sourceDigests
    else request.sourceDigests + [DigestValue("sha256", h.sha256(request.buffer))]
  }

  function Ingest(h: Hashes, c: Cutter, repository: Repository, request: Request): (Repository, Evidence) {
    var digests := NormalizeDigests(h, request);
    var chunks := Chunks(c, request.buffer);
    var p := PutAll(h, Progress(repository.chunks, [], [], [], 0), chunks);
    var fileId := h.fileHash(digests, |request.buffer|, p.terms);
    (Repository(
       p.store, repository.manifests[fileId := Manifest(request.description, digests, |request.buffer|, p.terms)]),
     Evidence(fileId, p.terms, p.uploaded, p.reused, digests, |request.buffer|, p.stored, |p.terms|, |p.reused|))
  }

  function IngestAll(h: Hashes, c: Cutter, repository: Repository, requests: seq<Request>): Repository
    decreases |requests|
  {
    if requests == [] then repository
    else Ingest(h, c, IngestAll(h, c, repository, requests[..|requests| - 1]), requests[|requests| - 1]).0
  }

  // ----- restore -----

  function ByStart(): (Term, Term) -> bool {
    (x: Term, y: Term) => x.startChunkIndex < y.startChunkIndex
  }

  /** Reading the chunk files term by term; a missing file is an error, here `None`. */
  function ReadTerms(store: Store, terms: seq<Term>): Option<seq<byte>>
    decreases |terms|
  {
    if terms == [] then Some([])
    else
      var last := terms[|terms| - 1];
      match ReadTerms(store, terms[..|terms| - 1])
      case None => None
      case Some(front) => if last.xorbHash in store then Some(front + store[last.xorbHash]) else None
  }

  function Restore(repository: Repository, terms: seq<Term>): Option<seq<byte>> {
    ReadTerms(repository.chunks, Sort(ByStart(), terms))
  }

  function RestoreById(repository: Repository, fileId: Digest): Option<seq<byte>> {
    if fileId in repository.manifests then Restore(repository, repository.manifests[fileId].terms) else None
  }

  // ----- the scripts, over a repository on disk -----

  class ChunkRepository {
    const hashes: Hashes
    const cutter: Cutter
    var chunks: Store
    var manifests: map<Digest, Manifest>

    constructor (hashes: Hashes, cutter: Cutter)
      ensures this.hashes == hashes && this.cutter == cutter && Contents() == Repository(map[], map[])
    {
      this.hashes := hashes;
      this.cutter := cutter;
      chunks := map[];
      manifests := map[];
    }

    function Contents(): Repository
      reads this
    {
      Repository(chunks, manifests)
    }

    method IngestFile(request: Request) returns (evidence: Evidence)
      modifies this
      ensures (Contents(), evidence) == Ingest(hashes, cutter, old(Contents()), request)
    {
      var digests := NormalizeDigests(hashes, request);
      var pieces := ChunkBuffer(cutter, request.buffer);
      var terms: seq<Term>, uploaded: seq<Digest>, reused: seq<Digest> := [], [], [];
      var storedByteLength: nat := 0;
      ghost var start := Progress(chunks, [], [], [], 0);
      for index := 0 to |pieces|
        invariant Progress(chunks, terms, uploaded, reused, storedByteLength) == PutAll(hashes, start, pieces[..index])
        invariant manifests == old(manifests)
      {
        assert pieces[..index + 1][..index] == pieces[..index];
        var chunk := pieces[index];
        var chunkHash := hashes.sha256(chunk);
        terms := terms + [Term(chunkHash, index, index + 1)];
        if chunkHash in chunks {
          reused := reused + [chunkHash];
        } else {
          chunks := chunks[chunkHash := chunk];
          uploaded := uploaded + [chunkHash];
          storedByteLength := storedByteLength + |chunk|;
        }
      }
      assert pieces[..|pieces|] == pieces;
      var fileId := hashes.fileHash(digests, |request.buffer|, terms);
      manifests := manifests[fileId := Manifest(request.description, digests, |request.buffer|, terms)];
      evidence :=
        Evidence(fileId, terms, uploaded, reused, digests, |request.buffer|, storedByteLength, |terms|, |reused|);
    }

    method RestoreTerms(given: seq<Term>) returns (result: Option<seq<byte>>)
      ensures result == Restore(Contents(), given)
    {
      var terms := Sort(ByStart(), given);
      var buffers: seq<byte> := [];
      for i := 0 to |terms|
        invariant ReadTerms(chunks, terms[..i]) == Some(buffers)
      {
        assert terms[..i + 1][..i] == terms[..i];
        if terms[i].xorbHash !in chunks {
          MissingTerm(chunks, terms, i + 1);
          return None;
        }
        buffers := buffers + chunks[terms[i].xorbHash];
      }
      assert terms[..|terms|] == terms;
      return Some(buffers);
    }
  }

  lemma {:induction false} MissingTerm(store: Store, terms: seq<Term>, i: nat)
    requires i <= |terms| && ReadTerms(store, terms[..i]).None?
    ensures ReadTerms(store, terms).None?
    decreases |terms| - i
  {
    if i == |terms| {
      assert terms[..i] == terms;
    } else {
      assert terms[..i + 1][..i] == terms[..i];
      MissingTerm(store, terms, i + 1);
    }
  }

  // ----- what every ingest keeps -----

  /** Every chunk file is named by the digest of its content. */
  ghost predicate Consistent(h: Hashes, store: Store) {
    forall d :: d in store ==> h.sha256(store[d]) == d
  }

  ghost predicate Grows(before: Store, after: Store) {
    forall d :: d in before ==> d in after && after[d] == before[d]
  }

  ghost predicate AllStored(h: Hashes, store: Store, chunks: seq<seq<byte>>) {
    forall i :: 0 <= i < |chunks| ==> h.sha256(chunks[i]) in store
  }

  function TermsOf(h: Hashes, chunks: seq<seq<byte>>): (terms: seq<Term>)
    ensures |terms| == |chunks|
  {
    seq(|chunks|, i requires 0 <= i < |chunks| => Term(h.sha256(chunks[i]), i, i + 1))
  }

  lemma {:induction false} PutAllMeaning(h: Hashes, store: Store, chunks: seq<seq<byte>>)
    requires Consistent(h, store)
    ensures var p := PutAll(h, Progress(store, [], [], [], 0), chunks);
      && p.terms == TermsOf(h, chunks)
      && Consistent(h, p.store) && Grows(store, p.store) && AllStored(h, p.store, chunks)
      && |p.uploaded| + |p.reused| == |chunks|
    decreases |chunks|
  {
    if chunks != [] {
      var front := chunks[..|chunks| - 1];
      PutAllMeaning(h, store, front);
      assert TermsOf(h, chunks) == TermsOf(h, front) + [Term(h.sha256(chunks[|chunks| - 1]), |chunks| - 1, |chunks|)];
    }
  }

  /** Ingesting chunks that are all known writes nothing. */
  lemma {:induction false} PutKnown(h: Hashes, store: Store, chunks: seq<seq<byte>>)
    requires AllStored(h, store, chunks)
    ensures var p := PutAll(h, Progress(store, [], [], [], 0), chunks);
      p.store == store && p.uploaded == [] && p.stored == 0 && |p.reused| == |chunks|
    decreases |chunks|
  {
    if chunks != [] {
      PutKnown(h, store, chunks[..|chunks| - 1]);
    }
  }

  // ----- sizes -----

  ghost function Bytes(store: Store): nat
    decreases |store|
  {
    if store == map[] then 0
    else
      var d :| d in store;
      |store[d]| + Bytes(store - {d})
  }

  lemma {:induction false} BytesWithout(store: Store, d: Digest)
    requires d in store
    ensures Bytes(store) == |store[d]| + Bytes(store - {d})
    decreases |store|
  {
    var e :| e in store && Bytes(store) == |store[e]| + Bytes(store - {e});
    if e != d {
      BytesWithout(store - {e}, d);
      BytesWithout(store - {d}, e);
      assert store - {e} - {d} == store - {d} - {e};
    }
  }

  lemma {:induction false} BytesAdded(store: Store, d: Digest, chunk: seq<byte>)
    requires d !in store
    ensures Bytes(store[d := chunk]) == Bytes(store) + |chunk|
  {
    var bigger := store[d := chunk];
    BytesWithout(bigger, d);
    assert bigger - {d} == store;
  }

  lemma {:induction false} PutAllBytes(h: Hashes, store: Store, chunks: seq<seq<byte>>)
    ensures var p := PutAll(h, Progress(store, [], [], [], 0), chunks);
      Bytes(p.store) == Bytes(store) + p.stored
    decreases |chunks|
  {
    if chunks != [] {
      var front, last := chunks[..|chunks| - 1], chunks[|chunks| - 1];
      PutAllBytes(h, store, front);
      var p := PutAll(h, Progress(store, [], [], [], 0), front);
      if h.sha256(last) !in p.store {
        BytesAdded(p.store, h.sha256(last), last);
      }
    }
  }

  // ----- main results -----

  /** One ingest: nothing is lost or changed, counts add up, and the reported bytes are what the store gained. */
  lemma {:induction false} IngestAccounts(h: Hashes, c: Cutter, repository: Repository, request: Request)
    requires Consistent(h, repository.chunks)
    ensures var (after, evidence) := Ingest(h, c, repository, request);
      && Consistent(h, after.chunks) && Grows(repository.chunks, after.chunks)
      && evidence.terms == TermsOf(h, Chunks(c, request.buffer))
      && AllStored(h, after.chunks, Chunks(c, request.buffer))
      && |evidence.uploaded| + evidence.reusedChunkCount == evidence.chunkCount == |Chunks(c, request.buffer)|
      && Bytes(after.chunks) == Bytes(repository.chunks) + evidence.storedByteLength
  {
    PutAllMeaning(h, repository.chunks, Chunks(c, request.buffer));
    PutAllBytes(h, repository.chunks, Chunks(c, request.buffer));
  }

  lemma {:induction false} IngestAllKeeps(h: Hashes, c: Cutter, repository: Repository, requests: seq<Request>, i: nat)
    requires Consistent(h, repository.chunks) && i <= |requests|
    ensures Consistent(h, IngestAll(h, c, repository, requests).chunks)
    ensures Grows(IngestAll(h, c, repository, requests[..i]).chunks, IngestAll(h, c, repository, requests).chunks)
    decreases |requests|
  {
    hide Ingest, Consistent;
    if i == |requests| {
      assert requests[..i] == requests;
    }
    if requests != [] {
      var front := requests[..|requests| - 1];
      IngestAllKeeps(h, c, repository, front, if i < |requests| then i else 0);
      if i < |requests| {
        assert front[..i] == requests[..i];
      }
      IngestAccounts(h, c, IngestAll(h, c, repository, front), requests[|requests| - 1]);
    }
  }

  /** What all ingests together reported as stored is what the store gained. */
  ghost function TotalStored(h: Hashes, c: Cutter, repository: Repository, requests: seq<Request>): nat
    decreases |requests|
  {
    if requests == [] then 0
    else
      var front := requests[..|requests| - 1];
      TotalStored(h, c, repository, front)
      + Ingest(h, c, IngestAll(h, c, repository, front), requests[|requests| - 1]).1.storedByteLength
  }

  lemma {:induction false} StoredBytesAddUp(h: Hashes, c: Cutter, repository: Repository, requests: seq<Request>)
    requires Consistent(h, repository.chunks)
    ensures Bytes(IngestAll(h, c, repository, requests).chunks)
      == Bytes(repository.chunks) + TotalStored(h, c, repository, requests)
    decreases |requests|
  {
    hide Ingest, Consistent;
    if requests != [] {
      var front := requests[..|requests| - 1];
      StoredBytesAddUp(h, c, repository, front);
      IngestAllKeeps(h, c, repository, front, 0);
      IngestAccounts(h, c, IngestAll(h, c, repository, front), requests[|requests| - 1]);
    }
  }

  lemma {:induction false} TermsOfSnoc(h: Hashes, front: seq<seq<byte>>, last: seq<byte>)
    ensures TermsOf(h, front + [last]) == TermsOf(h, front) + [Term(h.sha256(last), |front|, |front| + 1)]
  {
  }

  lemma {:induction false} ReadTermsSnoc(store: Store, front: seq<Term>, last: Term)
    requires ReadTerms(store, front).Some? && last.xorbHash in store
    ensures ReadTerms(store, front + [last]) == Some(ReadTerms(store, front).value + store[last.xorbHash])
  {
    var terms := front + [last];
    assert terms[..|terms| - 1] == front;
  }

  lemma {:induction false} ConcatSnoc(front: seq<seq<byte>>, last: seq<byte>)
    ensures Concat(front + [last]) == Concat(front) + last
  {
    ConcatAppend(front, [last]);
    assert Concat([last]) == last;
  }

  /** Equal digests mean equal bytes. */
  lemma {:induction false} StoredIsTheChunk(h: Hashes, store: Store, chunk: seq<byte>)
    requires CollisionFree(h) && Consistent(h, store) && h.sha256(chunk) in store
    ensures store[h.sha256(chunk)] == chunk
  {
    assert h.sha256(store[h.sha256(chunk)]) == h.sha256(chunk);
  }

  /** Terms of known chunks read back as the chunks themselves. */
  lemma {:induction false} TermsRestore(h: Hashes, store: Store, chunks: seq<seq<byte>>)
    requires CollisionFree(h) && Consistent(h, store) && AllStored(h, store, chunks)
    ensures ReadTerms(store, TermsOf(h, chunks)) == Some(Concat(chunks))
    decreases |chunks|
  {
    if chunks == [] {
      assert TermsOf(h, chunks) == [];
    } else {
      hide CollisionFree, Consistent, ReadTerms, TermsOf, Concat;
      var front, last := chunks[..|chunks| - 1], chunks[|chunks| - 1];
      TermsRestore(h, store, front);
      assert chunks == front + [last];
      TermsOfSnoc(h, front, last);
      StoredIsTheChunk(h, store, last);
      ReadTermsSnoc(store, TermsOf(h, front), Term(h.sha256(last), |front|, |front| + 1));
      ConcatSnoc(front, last);
    }
  }

  lemma {:induction false} TermsAscend(h: Hashes, chunks: seq<seq<byte>>)
    ensures StrictOrder(ByStart()) && Ascending(ByStart(), TermsOf(h, chunks))
  {
  }

  /** Shuffled terms still have pairwise different starts. */
  lemma {:induction false} ShuffledComparable(h: Hashes, chunks: seq<seq<byte>>, shuffled: seq<Term>)
    requires multiset(shuffled) == multiset(TermsOf(h, chunks))
    ensures Comparable(ByStart(), shuffled)
    ensures forall t :: t in shuffled <==> t in TermsOf(h, chunks)
  {
    var terms := TermsOf(h, chunks);
    forall t
      ensures t in shuffled <==> t in terms
    {
      assert t in shuffled <==> t in multiset(shuffled);
      assert t in terms <==> t in multiset(terms);
    }
    forall i, j | 0 <= i < j < |shuffled|
      ensures ByStart()(shuffled[i], shuffled[j]) || ByStart()(shuffled[j], shuffled[i])
    {
      assert shuffled[i] in terms && shuffled[j] in terms;
      if shuffled[i].startChunkIndex == shuffled[j].startChunkIndex {
        assert shuffled[i] == shuffled[j];
        TwiceCounted(shuffled, i, j);
        OnceCounted(h, chunks, shuffled[i]);
      }
    }
  }

  lemma {:induction false} TwiceCounted(s: seq<Term>, i: nat, j: nat)
    requires i < j < |s| && s[i] == s[j]
    ensures multiset(s)[s[i]] >= 2
  {
    assert s == s[..j] + s[j..];
    assert s[..j][i] == s[i] && s[j..][0] == s[j];
    assert multiset(s[..j])[s[i]] >= 1 && multiset(s[j..])[s[i]] >= 1;
  }

  lemma {:induction false} OnceCounted(h: Hashes, chunks: seq<seq<byte>>, t: Term)
    ensures multiset(TermsOf(h, chunks))[t] <= 1
    decreases |chunks|
  {
    var terms := TermsOf(h, chunks);
    if chunks != [] {
      var front := chunks[..|chunks| - 1];
      OnceCounted(h, front, t);
      assert terms == TermsOf(h, front) + [terms[|terms| - 1]];
      if t == terms[|terms| - 1] {
        assert t !in TermsOf(h, front);
        assert multiset(TermsOf(h, front))[t] == 0;
      }
    }
  }

  /** Restoring needs only the chunks: any order of the terms gives the bytes that were ingested. */
  lemma {:induction false} RestoreShuffled(
      h: Hashes, repository: Repository, chunks: seq<seq<byte>>, shuffled: seq<Term>)
    requires CollisionFree(h) && Consistent(h, repository.chunks) && AllStored(h, repository.chunks, chunks)
    requires multiset(shuffled) == multiset(TermsOf(h, chunks))
    ensures Restore(repository, shuffled) == Some(Concat(chunks))
  {
    hide CollisionFree, Consistent, StrictOrder, Comparable, Ascending;
    var terms := TermsOf(h, chunks);
    TermsAscend(h, chunks);
    ShuffledComparable(h, chunks, shuffled);
    ShuffledComparable(h, chunks, terms);
    SortForgetsOrder(ByStart(), shuffled, terms);
    SortFixed(ByStart(), terms);
    TermsRestore(h, repository.chunks, chunks);
  }

  /**
   * Over every sequence of ingests, every file ingested on the way can be restored at the end,
   * byte for byte, from its evidence with the terms in any order.
   */
  lemma {:induction false} RestoreAfterAll(
      h: Hashes, c: Cutter, repository: Repository, requests: seq<Request>, i: nat, shuffled: seq<Term>)
    requires CollisionFree(h) && Consistent(h, repository.chunks) && i < |requests|
    requires multiset(shuffled)
      == multiset(Ingest(h, c, IngestAll(h, c, repository, requests[..i]), requests[i]).1.terms)
    ensures Restore(IngestAll(h, c, repository, requests), shuffled) == Some(requests[i].buffer)
  {
    hide Ingest, CollisionFree, Consistent, Restore, Chunks;
    var before := IngestAll(h, c, repository, requests[..i]);
    var chunks := Chunks(c, requests[i].buffer);
    IngestAllKeeps(h, c, repository, requests[..i], 0);
    IngestAccounts(h, c, before, requests[i]);
    assert requests[..i + 1][..i] == requests[..i];
    assert IngestAll(h, c, repository, requests[..i + 1]) == Ingest(h, c, before, requests[i]).0;
    IngestAllKeeps(h, c, repository, requests, i + 1);
    ChunksIsChunking(c, requests[i].buffer);
    RestoreShuffled(h, IngestAll(h, c, repository, requests), chunks, shuffled);
  }

  /** The manifest stored under a file id keeps its terms through all later ingests. */
  lemma {:induction false} ManifestTerms(h: Hashes, c: Cutter, repository: Repository, requests: seq<Request>, i: nat)
    requires CollisionFree(h) && i < |requests|
    ensures var evidence := Ingest(h, c, IngestAll(h, c, repository, requests[..i]), requests[i]).1;
      var manifests := IngestAll(h, c, repository, requests).manifests;
      evidence.fileId in manifests && manifests[evidence.fileId].terms == evidence.terms
    decreases |requests|
  {
    var front, last := requests[..|requests| - 1], requests[|requests| - 1];
    if i == |requests| - 1 {
    } else {
      assert front[..i] == requests[..i];
      ManifestTerms(h, c, repository, front, i);
      OtherFile(h, c, repository, requests, i);
    }
  }

  lemma {:induction false} OtherFile(h: Hashes, c: Cutter, repository: Repository, requests: seq<Request>, i: nat)
    requires CollisionFree(h) && i < |requests| - 1
    ensures var evidence := Ingest(h, c, IngestAll(h, c, repository, requests[..i]), requests[i]).1;
      var last := Ingest(h, c, IngestAll(h, c, repository, requests[..|requests| - 1]), requests[|requests| - 1]).1;
      last.fileId == evidence.fileId ==> last.terms == evidence.terms
  {
  }

  /** The same, asked for by file id. */
  lemma {:induction false} RestoreByIdAfterAll(
      h: Hashes, c: Cutter, repository: Repository, requests: seq<Request>, i: nat)
    requires CollisionFree(h) && Consistent(h, repository.chunks) && i < |requests|
    ensures var evidence := Ingest(h, c, IngestAll(h, c, repository, requests[..i]), requests[i]).1;
      RestoreById(IngestAll(h, c, repository, requests), evidence.fileId) == Some(requests[i].buffer)
  {
    hide Ingest, CollisionFree, Consistent, Restore;
    ManifestTerms(h, c, repository, requests, i);
    var evidence := Ingest(h, c, IngestAll(h, c, repository, requests[..i]), requests[i]).1;
    RestoreAfterAll(h, c, repository, requests, i, evidence.terms);
  }

  /** Ingesting a file again, however much later, uploads nothing. */
  lemma {:induction false} ReingestStoresNothing(
      h: Hashes, c: Cutter, repository: Repository, requests: seq<Request>, i: nat, again: Request)
    requires Consistent(h, repository.chunks) && i < |requests| && again.buffer == requests[i].buffer
    ensures var (after, evidence) := Ingest(h, c, IngestAll(h, c, repository, requests), again);
      && after.chunks == IngestAll(h, c, repository, requests).chunks
      && evidence.storedByteLength == 0 && evidence.uploaded == [] && evidence.reusedChunkCount == evidence.chunkCount
  {
    var chunks := Chunks(c, again.buffer);
    KnownAfterAll(h, c, repository, requests, i);
    PutKnown(h, IngestAll(h, c, repository, requests).chunks, chunks);
    IngestAllKeeps(h, c, repository, requests, 0);
    PutAllMeaning(h, IngestAll(h, c, repository, requests).chunks, chunks);
  }

  lemma {:induction false} KnownAfterAll(h: Hashes, c: Cutter, repository: Repository, requests: seq<Request>, i: nat)
    requires Consistent(h, repository.chunks) && i < |requests|
    ensures AllStored(h, IngestAll(h, c, repository, requests).chunks, Chunks(c, requests[i].buffer))
  {
    hide Ingest, Consistent, Chunks;
    var before := IngestAll(h, c, repository, requests[..i]);
    IngestAllKeeps(h, c, repository, requests[..i], 0);
    IngestAccounts(h, c, before, requests[i]);
    assert requests[..i + 1][..i] == requests[..i];
    assert IngestAll(h, c, repository, requests[..i + 1]) == Ingest(h, c, before, requests[i]).0;
    IngestAllKeeps(h, c, repository, requests, i + 1);
  }

  lemma {:induction false} PutAllConcat(h: Hashes, p: Progress, a: seq<seq<byte>>, b: seq<seq<byte>>)
    requires AllStored(h, p.store, b)
    ensures |PutAll(h, p, a + b).reused| >= |b|
    decreases |b|
  {
    if b != [] {
      var front := b[..|b| - 1];
      assert (a + b)[..|a + b| - 1] == a + front;
      PutAllConcat(h, p, a, front);
      PutAllGrows(h, p, a + front);
      assert (a + b)[|a + b| - 1] == b[|b| - 1];
    }
  }

  lemma {:induction false} PutAllGrows(h: Hashes, p: Progress, chunks: seq<seq<byte>>)
    ensures Grows(p.store, PutAll(h, p, chunks).store)
    decreases |chunks|
  {
    if chunks != [] {
      PutAllGrows(h, p, chunks[..|chunks| - 1]);
    }
  }

  /**
   * Two versions that differ only before a place where both have a cut: ingesting the second after
   * the first reuses at least every chunk of the common rest.
   */
  lemma {:induction false} SharedRestIsReused(
      h: Hashes, c: Cutter, repository: Repository, p: seq<byte>, q: seq<byte>, s: seq<byte>,
      first: Request, second: Request)
    requires Consistent(h, repository.chunks) && EndsAtCut(c, p) && EndsAtCut(c, q)
    requires first.buffer == p + s && second.buffer == q + s
    ensures Ingest(h, c, Ingest(h, c, repository, first).0, second).1.reusedChunkCount >= |Chunks(c, s)|
  {
    hide Chunks, Consistent, EndsAtCut;
    CutResynchronises(c, p, s);
    CutResynchronises(c, q, s);
    IngestAccounts(h, c, repository, first);
    var store := Ingest(h, c, repository, first).0.chunks;
    var common := Chunks(c, s);
    assert AllStored(h, store, common) by {
      forall i | 0 <= i < |common|
        ensures h.sha256(common[i]) in store
      {
        assert Chunks(c, p + s)[|Chunks(c, p)| + i] == common[i];
      }
    }
    PutAllConcat(h, Progress(store, [], [], [], 0), Chunks(c, q), common);
  }

  // ----- what an ingest says -----

  /** Digests of chunks, by whether the chunk is new where it comes: not in the store and not among those before. */
  ghost predicate IsNew(h: Hashes, store: Store, chunks: seq<seq<byte>>, i: nat)
    requires i < |chunks|
  {
    h.sha256(chunks[i]) !in store && forall j :: 0 <= j < i ==> h.sha256(chunks[j]) != h.sha256(chunks[i])
  }

  /** The digests of the new chunks, or of the others, in order. */
  ghost function Selected(h: Hashes, store: Store, chunks: seq<seq<byte>>, n: nat, unknown: bool): seq<Digest>
    requires n <= |chunks|
  {
    if n == 0 then []
    else
      Selected(h, store, chunks, n - 1, unknown)
      + if IsNew(h, store, chunks, n - 1) == unknown then [h.sha256(chunks[n - 1])] else []
  }

  lemma {:induction false} SelectedPrefix(h: Hashes, store: Store, chunks: seq<seq<byte>>, n: nat, unknown: bool)
    requires n < |chunks|
    ensures Selected(h, store, chunks[..|chunks| - 1], n, unknown) == Selected(h, store, chunks, n, unknown)
  {
    if n > 0 {
      SelectedPrefix(h, store, chunks, n - 1, unknown);
      var front := chunks[..|chunks| - 1];
      assert IsNew(h, store, front, n - 1) <==> IsNew(h, store, chunks, n - 1);
    }
  }

  ghost predicate IsChunk(h: Hashes, chunks: seq<seq<byte>>, d: Digest) {
    exists i :: 0 <= i < |chunks| && h.sha256(chunks[i]) == d
  }

  lemma {:induction false} ChunkSnoc(h: Hashes, chunks: seq<seq<byte>>, d: Digest)
    requires chunks != []
    ensures var n := |chunks| - 1; IsChunk(h, chunks, d) <==> IsChunk(h, chunks[..n], d) || h.sha256(chunks[n]) == d
  {
    var n := |chunks| - 1;
    assert forall i :: 0 <= i < n ==> chunks[..n][i] == chunks[i];
  }

  /** The store keeps what it had and gets the chunks of the file. */
  lemma {:induction false} PutAllStores(h: Hashes, store: Store, chunks: seq<seq<byte>>, d: Digest)
    ensures d in PutAll(h, Progress(store, [], [], [], 0), chunks).store <==> d in store || IsChunk(h, chunks, d)
    decreases |chunks|
  {
    if chunks != [] {
      hide IsChunk;
      PutAllStores(h, store, chunks[..|chunks| - 1], d);
      ChunkSnoc(h, chunks, d);
    }
  }

  lemma {:induction false} PutAllSelects(h: Hashes, store: Store, chunks: seq<seq<byte>>)
    ensures var p := PutAll(h, Progress(store, [], [], [], 0), chunks);
      p.uploaded == Selected(h, store, chunks, |chunks|, true)
      && p.reused == Selected(h, store, chunks, |chunks|, false)
    decreases |chunks|
  {
    if chunks != [] {
      var n := |chunks| - 1;
      var front := chunks[..n];
      PutAllSelects(h, store, front);
      SelectedPrefix(h, store, chunks, n, true);
      SelectedPrefix(h, store, chunks, n, false);
      PutAllStores(h, store, front, h.sha256(chunks[n]));
      assert forall i :: 0 <= i < n ==> front[i] == chunks[i];
      var last := h.sha256(chunks[n]);
      assert IsChunk(h, front, last) <==> exists i :: 0 <= i < n && h.sha256(chunks[i]) == last;
    }
  }

  /**
   * One ingest uploads exactly the chunks that are new where they come and reuses the others; and it
   * files a manifest with the digests, one sha256 among them, the length and the terms, under their hash.
   */
  lemma {:induction false} IngestSays(h: Hashes, c: Cutter, repository: Repository, request: Request)
    requires Consistent(h, repository.chunks)
    ensures var (after, e) := Ingest(h, c, repository, request);
      var chunks := Chunks(c, request.buffer);
      && e.uploaded == Selected(h, repository.chunks, chunks, |chunks|, true)
      && e.deduplicated == Selected(h, repository.chunks, chunks, |chunks|, false)
      && e.reusedChunkCount == |e.deduplicated| && e.chunkCount == |chunks|
      && e.logicalByteLength == |request.buffer| && e.terms == TermsOf(h, chunks)
      && (if exists d :: d in request.sourceDigests && d.algorithm == "sha256" then e.digests == request.sourceDigests
          else e.digests == request.sourceDigests + [DigestValue("sha256", h.sha256(request.buffer))])
      && e.fileId == h.fileHash(e.digests, e.logicalByteLength, e.terms)
      && after.manifests == repository.manifests[e.fileId :=
           Manifest(request.description, e.digests, e.logicalByteLength, e.terms)]
  {
    PutAllSelects(h, repository.chunks, Chunks(c, request.buffer));
    PutAllMeaning(h, repository.chunks, Chunks(c, request.buffer));
  }
}
