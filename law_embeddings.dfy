// app/embeddings/law.py: the 10% cut of the loaded articles, the batching of
// the split documents, and the pool of collection-partition names that the
// writers share. The pool is a FIFO queue; writers are modelled one after
// another, in submission order.
module LawEmbeddings {
  import opened Common
  import opened Documents
  import Batching

  // ---------------------------------------------------------------------------
  // Partition names

  /** `f'{collection_name_prefix}_{i}'`. */
  function PartitionName(prefix: string, i: nat): string {
    prefix + "_" + Decimal(i)
  }

  /** The names put by `for i in range(collection_partition_size)`, in order;
      a size below 1 puts none. */
  function SeedNames(prefix: string, k: int): (names: seq<string>)
    ensures |names| == if k > 0 then k else 0
    ensures forall i | 0 <= i < |names| :: names[i] == PartitionName(prefix, i)
  {
    if k <= 0 then [] else seq(k, i requires 0 <= i < k => PartitionName(prefix, i))
  }

  /** Different indices give different names, so the seeded pool holds no
      duplicate. */
  lemma PartitionNamesDistinct(prefix: string, i: nat, j: nat)
    requires i != j
    ensures PartitionName(prefix, i) != PartitionName(prefix, j)
  {
    if PartitionName(prefix, i) == PartitionName(prefix, j) {
      var n := |prefix| + 1;
      assert PartitionName(prefix, i)[n..] == Decimal(i);
      assert PartitionName(prefix, j)[n..] == Decimal(j);
      DecimalInjective(i, j);
    }
  }

  lemma SeedNamesDistinct(prefix: string, k: int)
    ensures forall i, j | 0 <= i < j < |SeedNames(prefix, k)| :: SeedNames(prefix, k)[i] != SeedNames(prefix, k)[j]
  {
    forall i, j | 0 <= i < j < |SeedNames(prefix, k)|
      ensures SeedNames(prefix, k)[i] != SeedNames(prefix, k)[j]
    {
      PartitionNamesDistinct(prefix, i, j);
    }
  }

  /** The shared `manager.Queue()` of partition names. */
  class PartitionPool {
    var names: seq<string>

    constructor ()
      ensures names == []
    {
      names := [];
    }

    /** `queue.put(name)`: appends at the back. */
    method Put(name: string)
      modifies this
      ensures names == old(names) + [name]
    {
      names := names + [name];
    }

    /** `queue.get()`: takes the front name; on an empty queue the call never
        returns, given here as `None`, with the queue unchanged. */
    method Get() returns (name: Option<string>)
      modifies this
      ensures old(names) == [] ==> name.None? && names == old(names)
      ensures old(names) != [] ==> name == Some(old(names)[0]) && names == old(names)[1..]
    {
      if names == [] {
        name := None;
      } else {
        name := Some(names[0]);
        names := names[1..];
      }
    }
  }

  /** The seeding loop of `transformer`: one put per index, in increasing order. */
  method SeedPool(pool: PartitionPool, prefix: string, k: int)
    modifies pool
    ensures pool.names == old(pool.names) + SeedNames(prefix, k)
  {
    var i := 0;
    while i < k
      invariant 0 <= i <= (if k > 0 then k else 0)
      invariant pool.names == old(pool.names) + SeedNames(prefix, i)
    {
      pool.Put(PartitionName(prefix, i));
      assert SeedNames(prefix, i + 1) == SeedNames(prefix, i) + [PartitionName(prefix, i)];
      i := i + 1;
    }
    assert k <= 0 ==> SeedNames(prefix, i) == SeedNames(prefix, k);
  }

  // ---------------------------------------------------------------------------
  // add_documents

  /** How far one write gets: the Chroma client is built first, before a name
      is taken; then the add, then the persist. */
  datatype WriteOutcome = ConstructionFails | AddFails | PersistFails | WriteCompletes

  /** What one call of `add_documents` does: raises at a stage, never returns
      because the queue is empty, or returns True. */
  datatype AddResult = Raised(stage: WriteOutcome) | Blocked | ReturnedTrue

  /** The pool after one `add_documents`, and its result. The name taken by
      `queue.get()` goes back only when add and persist both complete: there is
      no `try`/`finally` around them. */
  function AddStep(names: seq<string>, o: WriteOutcome): (seq<string>, AddResult) {
    if o == ConstructionFails then (names, Raised(o))
    else if names == [] then (names, Blocked)
    else if o != WriteCompletes then (names[1..], Raised(o))
    else (names[1..] + [names[0]], ReturnedTrue)
  }

  /** `add_documents(vectorstore_filepath, queue, documents)` with the store's
      behaviour given as `o`. */
  method AddDocuments(pool: PartitionPool, o: WriteOutcome) returns (r: AddResult)
    modifies pool
    ensures (pool.names, r) == AddStep(old(pool.names), o)
  {
    if o == ConstructionFails {
      return Raised(o);
    }
    var name := pool.Get();
    if name.None? {
      return Blocked;
    }
    if o != WriteCompletes {
      return Raised(o);
    }
    pool.Put(name.value);
    r := ReturnedTrue;
  }

  /** A completed write takes the front name and puts the same name at the
      back: the pool holds the same names afterwards. */
  lemma CompletedWriteKeepsNames(names: seq<string>)
    requires names != []
    ensures var (after, r) := AddStep(names, WriteCompletes);
      && r == ReturnedTrue
      && after == names[1..] + [names[0]]
      && multiset(after) == multiset(names)
  {
    assert names == [names[0]] + names[1..];
  }

  /** A write whose add or persist raises loses the name it took: the pool
      shrinks by one, and a name held once is gone. */
  lemma FailedWriteLosesName(names: seq<string>, o: WriteOutcome)
    requires names != [] && (o == AddFails || o == PersistFails)
    ensures var (after, r) := AddStep(names, o);
      && r == Raised(o)
      && after == names[1..]
      && multiset(after) == multiset(names) - multiset{names[0]}
      && (multiset(names)[names[0]] == 1 ==> names[0] !in after)
  {
    assert names == [names[0]] + names[1..];
    assert multiset(names) == multiset{names[0]} + multiset(names[1..]);
  }

  // ---------------------------------------------------------------------------
  // Submitting every batch

  /** The writes of all batches, one after another. */
  function SubmitAll(names: seq<string>, outcomes: seq<WriteOutcome>): (seq<string>, seq<AddResult>)
    decreases |outcomes|
  {
    if outcomes == [] then (names, [])
    else
      var (next, r) := AddStep(names, outcomes[0]);
      var (last, rs) := SubmitAll(next, outcomes[1..]);
      (last, [r] + rs)
  }

  /** A write that loses its name. */
  predicate LosesName(r: AddResult) {
    r == Raised(AddFails) || r == Raised(PersistFails)
  }

  /** Number of writes that lost their name. */
  function LostCount(rs: seq<AddResult>): nat {
    if rs == [] then 0 else (if LosesName(rs[0]) then 1 else 0) + LostCount(rs[1..])
  }

  /** One result per batch; the pool ends smaller by exactly the number of
      writes whose add or persist raised, and never gains a name it did not
      hold. */
  lemma {:induction false} SubmitAllAccounts(names: seq<string>, outcomes: seq<WriteOutcome>)
    ensures var (last, rs) := SubmitAll(names, outcomes);
      && |rs| == |outcomes|
      && |last| + LostCount(rs) == |names|
      && multiset(last) <= multiset(names)
    decreases |outcomes|
  {
    if outcomes != [] {
      var (next, r) := AddStep(names, outcomes[0]);
      SubmitAllAccounts(next, outcomes[1..]);
      var (last, rs) := SubmitAll(next, outcomes[1..]);
      assert SubmitAll(names, outcomes) == (last, [r] + rs);
      assert ([r] + rs)[1..] == rs;
      if names != [] {
        assert names == [names[0]] + names[1..];
        assert multiset(names) == multiset{names[0]} + multiset(names[1..]);
      }
    }
  }

  /** When every write completes, no write blocks and the pool ends with the
      names it started with. */
  lemma {:induction false} AllCompletedKeepsNames(names: seq<string>, outcomes: seq<WriteOutcome>)
    requires names != []
    requires forall j | 0 <= j < |outcomes| :: outcomes[j] == WriteCompletes
    ensures var (last, rs) := SubmitAll(names, outcomes);
      && multiset(last) == multiset(names)
      && forall j | 0 <= j < |rs| :: rs[j] == ReturnedTrue
    decreases |outcomes|
  {
    if outcomes != [] {
      CompletedWriteKeepsNames(names);
      var next := AddStep(names, WriteCompletes).0;
      assert |next| == |names|;
      AllCompletedKeepsNames(next, outcomes[1..]);
      var (last, rs) := SubmitAll(next, outcomes[1..]);
      assert SubmitAll(names, outcomes).1 == [ReturnedTrue] + rs;
    }
  }

  /** Once the pool is empty, every later write that gets past building its
      client waits forever on `queue.get()`. */
  lemma {:induction false} EmptyPoolBlocks(outcomes: seq<WriteOutcome>)
    ensures var (last, rs) := SubmitAll([], outcomes);
      && last == []
      && |rs| == |outcomes|
      && forall j | 0 <= j < |rs| :: rs[j] == if outcomes[j] == ConstructionFails then Raised(ConstructionFails) else Blocked
    decreases |outcomes|
  {
    if outcomes != [] {
      EmptyPoolBlocks(outcomes[1..]);
      var (last, rs) := SubmitAll([], outcomes[1..]);
      var r := AddStep([], outcomes[0]).1;
      assert SubmitAll([], outcomes) == (last, [r] + rs);
      forall j | 0 < j < |outcomes|
        ensures ([r] + rs)[j] == if outcomes[j] == ConstructionFails then Raised(ConstructionFails) else Blocked
      {
        assert outcomes[1..][j - 1] == outcomes[j];
      }
    }
  }

  /** As many failing writes as there are names empty the pool. */
  lemma {:induction false} FailuresDrainPool(names: seq<string>, o: WriteOutcome)
    requires o == AddFails || o == PersistFails
    ensures SubmitAll(names, seq(|names|, j => o)).0 == []
    decreases |names|
  {
    if names != [] {
      var fails := seq(|names|, j => o);
      assert fails[1..] == seq(|names[1..]|, j => o);
      FailuresDrainPool(names[1..], o);
    }
  }

  /** k partitions and k writes whose add raises: the next write that builds
      its client never returns, so `pool.join()` never does either. */
  lemma LostNamesDeadlock(prefix: string, k: nat, o: WriteOutcome)
    requires o != ConstructionFails
    ensures var rs := SubmitAll(SeedNames(prefix, k), seq(k, j => AddFails) + [o]).1;
      |rs| == k + 1 && rs[k] == Blocked
  {
    var names := SeedNames(prefix, k);
    var fails := seq(k, j => AddFails);
    assert fails == seq(|names|, j => AddFails);
    FailuresDrainPool(names, AddFails);
    SubmitAllSplit(names, fails, [o]);
    EmptyPoolBlocks([o]);
    SubmitAllAccounts(names, fails);
  }

  /** Submitting two runs of batches is submitting the first, then the second
      from the pool the first left. */
  lemma {:induction false} SubmitAllSplit(names: seq<string>, a: seq<WriteOutcome>, b: seq<WriteOutcome>)
    ensures var (mid, ra) := SubmitAll(names, a);
      var (last, rb) := SubmitAll(mid, b);
      SubmitAll(names, a + b) == (last, ra + rb)
    decreases |a|
  {
    if a == [] {
      assert a + b == b;
      assert SubmitAll(names, a) == (names, []);
      assert [] + SubmitAll(names, b).1 == SubmitAll(names, b).1;
    } else {
      var next := AddStep(names, a[0]).0;
      assert (a + b)[0] == a[0];
      assert (a + b)[1..] == a[1..] + b;
      SubmitAllSplit(next, a[1..], b);
      var (mid, ra') := SubmitAll(next, a[1..]);
      var (last, rb) := SubmitAll(mid, b);
      assert [AddStep(names, a[0]).1] + (ra' + rb) == ([AddStep(names, a[0]).1] + ra') + rb;
    }
  }

  /** The submission loop of `transformer`, one batch after another. */
  method SubmitBatches(pool: PartitionPool, outcomes: seq<WriteOutcome>) returns (results: seq<AddResult>)
    modifies pool
    ensures (pool.names, results) == SubmitAll(old(pool.names), outcomes)
  {
    ghost var start := pool.names;
    results := [];
    var i := 0;
    assert outcomes[0..] == outcomes;
    assert results + SubmitAll(start, outcomes).1 == SubmitAll(start, outcomes).1;
    while i < |outcomes|
      invariant 0 <= i <= |outcomes|
      invariant SubmitAll(start, outcomes) == (SubmitAll(pool.names, outcomes[i..]).0, results + SubmitAll(pool.names, outcomes[i..]).1)
    {
      ghost var before := pool.names;
      var r := AddDocuments(pool, outcomes[i]);
      assert outcomes[i..][0] == outcomes[i] && outcomes[i..][1..] == outcomes[i + 1..];
      assert SubmitAll(before, outcomes[i..]).1 == [r] + SubmitAll(pool.names, outcomes[i + 1..]).1;
      assert results + ([r] + SubmitAll(pool.names, outcomes[i + 1..]).1)
          == (results + [r]) + SubmitAll(pool.names, outcomes[i + 1..]).1;
      results := results + [r];
      i := i + 1;
    }
    assert outcomes[i..] == [];
    assert results + [] == results;
  }

  // ---------------------------------------------------------------------------
  // transformer

  /** `articles[:int(len(articles) * 0.1)]`, with the product taken as exact:
      the first tenth, rounded down. */
  function DebugCut<T>(articles: seq<T>): (r: seq<T>)
    ensures |r| == |articles| / 10 && r == articles[..|r|]
  {
    articles[..|articles| / 10]
  }

  /** The defaults of `transformer`. */
  const DefaultPrefix: string := "law"
  const DefaultPartitions: int := 4
  const DefaultChunkSize: int := 900
  const DefaultChunkOverlap: int := 100

  /** How `transformer` ends. */
  datatype TransformerOutcome =
    | ChunkerRaised                  // no split document: `range` with step 0
    | PoolRejected(seeded: seq<string>)  // `Pool(processes=k)` with k < 1
    | Finished(documents: seq<Doc>, batches: seq<seq<Doc>>, pool: seq<string>, results: seq<AddResult>)

  /** The outcome of each batch's write, by position. */
  function BatchOutcomes(batches: seq<seq<Doc>>, outcomeAt: nat -> WriteOutcome): (os: seq<WriteOutcome>)
    ensures |os| == |batches|
  {
    seq(|batches|, j requires 0 <= j => outcomeAt(j))
  }

  /** `transformer` with the loaded articles, the splitter and each write's
      behaviour as inputs. */
  function Transformer(articles: seq<Doc>, prefix: string, k: int,
                       split: seq<Doc> -> seq<Doc>, outcomeAt: nat -> WriteOutcome): TransformerOutcome
  {
    var documents := split(DebugCut(articles));
    match Batching.Chunker(documents)
    case Err(_) => ChunkerRaised
    case Ok((batches, _)) =>
      var seeded := SeedNames(prefix, k);
      if k < 1 then PoolRejected(seeded)
      else
        var (last, results) := SubmitAll(seeded, BatchOutcomes(batches, outcomeAt));
        Finished(documents, batches, last, results)
  }

  /** The same steps as statements: split, batch, seed the pool, submit. */
  method RunTransformer(articles: seq<Doc>, prefix: string, k: int,
                        split: seq<Doc> -> seq<Doc>, outcomeAt: nat -> WriteOutcome)
    returns (out: TransformerOutcome)
    ensures out == Transformer(articles, prefix, k, split, outcomeAt)
  {
    var documents := split(DebugCut(articles));
    var chunked := Batching.Chunker(documents);
    if chunked.Err? {
      return ChunkerRaised;
    }
    var (batches, _) := chunked.value;
    var pool := new PartitionPool();
    SeedPool(pool, prefix, k);
    assert pool.names == SeedNames(prefix, k);
    if k < 1 {
      return PoolRejected(pool.names);
    }
    var results := SubmitBatches(pool, BatchOutcomes(batches, outcomeAt));
    out := Finished(documents, batches, pool.names, results);
  }

  /** Every split document is submitted in exactly one batch, in order, each
      batch written once; the pool started with the k partition names and
      lost one per failed write. */
  lemma TransformerSubmitsEveryDocument(articles: seq<Doc>, prefix: string, k: int,
                                        split: seq<Doc> -> seq<Doc>, outcomeAt: nat -> WriteOutcome)
    requires Transformer(articles, prefix, k, split, outcomeAt).Finished?
    ensures var out := Transformer(articles, prefix, k, split, outcomeAt);
      && out.documents == split(DebugCut(articles))
      && Batching.Flatten(out.batches) == out.documents
      && |out.results| == |out.batches|
      && |out.pool| + LostCount(out.results) == k
  {
    var out := Transformer(articles, prefix, k, split, outcomeAt);
    Batching.ChunkerPartitions(out.documents);
    SubmitAllAccounts(SeedNames(prefix, k), BatchOutcomes(out.batches, outcomeAt));
  }

  /** Fewer than ten articles are cut to none; a splitter that makes nothing
      of nothing then leaves `chunker` an empty list, and it raises. */
  lemma FewArticlesRaise(articles: seq<Doc>, prefix: string, k: int,
                         split: seq<Doc> -> seq<Doc>, outcomeAt: nat -> WriteOutcome)
    requires |articles| < 10 && split([]) == []
    ensures Transformer(articles, prefix, k, split, outcomeAt) == ChunkerRaised
  {
    assert DebugCut(articles) == [];
  }
}
