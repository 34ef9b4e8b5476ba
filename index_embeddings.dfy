// app/index/embeddings.py: the document preprocessing of `Embeddings.run`
// (prefix cut, full-width space replacement, confirmation) and of
// `LawEmbeddings._splitter` (augmented chunk content), and the outcome of
// `_add_documents`. Loading, splitting, cost estimation and the vector store
// are inputs here.
module IndexEmbeddings {
  import opened Common
  import opened Documents
  import Batching

  // ---------------------------------------------------------------------------
  // _place_cjk_space

  /** Every document with its content passed through `ReplaceCjk`. */
  function ReplaceCjkAll(ds: seq<Doc>): (r: seq<Doc>)
    ensures |r| == |ds|
    ensures forall i | 0 <= i < |ds| :: r[i] == ds[i].(content := ReplaceCjk(ds[i].content))
  {
    seq(|ds|, i requires 0 <= i < |ds| => ds[i].(content := ReplaceCjk(ds[i].content)))
  }

  /** Doing it twice is doing it once. */
  lemma ReplaceCjkAllIdempotent(ds: seq<Doc>)
    ensures ReplaceCjkAll(ReplaceCjkAll(ds)) == ReplaceCjkAll(ds)
  {
    forall i | 0 <= i < |ds|
      ensures ReplaceCjkAll(ReplaceCjkAll(ds))[i] == ReplaceCjkAll(ds)[i]
    {
      ReplaceCjkIdempotent(ds[i].content);
    }
  }

  /** `_place_cjk_space`: rewrites each document's content in place and returns
      the same list. A document listed twice is rewritten twice, which changes
      nothing more, so the result holds for any list. */
  method PlaceCjkSpace(documents: seq<Document>) returns (r: seq<Document>)
    modifies set d | d in documents
    ensures r == documents
    ensures Snapshot(documents) == ReplaceCjkAll(old(Snapshot(documents)))
  {
    var i := 0;
    while i < |documents|
      invariant 0 <= i <= |documents|
      invariant forall d | d in documents :: d.metadata == old(d.metadata)
      invariant forall d | d in documents ::
        d.pageContent == if d in documents[..i] then ReplaceCjk(old(d.pageContent)) else old(d.pageContent)
    {
      var doc := documents[i];
      if doc in documents[..i] {
        ReplaceCjkIdempotent(old(doc.pageContent));
      }
      doc.pageContent := ReplaceCjk(doc.pageContent);
      assert documents[..i + 1] == documents[..i] + [doc];
      i := i + 1;
    }
    assert documents[..i] == documents;
    r := documents;
  }

  // ---------------------------------------------------------------------------
  // Augmented chunk content

  /** How an f-string renders a metadata value: `None` prints as "None". */
  function Render(v: MetaValue): string {
    match v
    case Null => "None"
    case Text(s) => s
  }

  const NameLabel: string := "法規名稱："
  const CategoryLabel: string := "法規類別："
  const ContentLabel: string := "條文內容："
  const FullWidthColon: string := "："

  /** The concatenation of `parts`, as an f-string joins its pieces. */
  function Join(parts: seq<string>): string {
    if parts == [] then [] else parts[0] + Join(parts[1..])
  }

  lemma {:induction false} JoinAppend(a: seq<string>, b: seq<string>)
    ensures Join(a + b) == Join(a) + Join(b)
  {
    if a != [] {
      JoinAppend(a[1..], b);
      assert (a + b)[1..] == a[1..] + b;
    } else {
      assert a + b == b;
    }
  }

  /** The pieces of the augmented content before the chunk's own text. */
  function HeaderParts(name: string, category: string, chapter: string, no: string): seq<string> {
    [NameLabel, name, "\n", CategoryLabel, category, "\n", ContentLabel, chapter, "\n", no, FullWidthColon]
  }

  /** `f"法規名稱：{name}\n法規類別：{category}\n條文內容：{chapter}\n{no}：{content}"`. */
  function Augmented(name: string, category: string, chapter: string, no: string, content: string): string {
    Join(HeaderParts(name, category, chapter, no) + [content])
  }

  /** The augmented content is a header that starts with the name label,
      followed by the old content; dropping the header gives the old content
      back. */
  lemma AugmentedSplits(name: string, category: string, chapter: string, no: string, content: string)
    ensures var h := Join(HeaderParts(name, category, chapter, no));
      && Augmented(name, category, chapter, no, content) == h + content
      && Augmented(name, category, chapter, no, content)[|h|..] == content
      && Augmented(name, category, chapter, no, content)[..|NameLabel|] == NameLabel
  {
    var parts := HeaderParts(name, category, chapter, no);
    JoinAppend(parts, [content]);
    assert Join([content]) == content + Join([]);
    var h := Join(parts);
    assert h == NameLabel + Join(parts[1..]);
    var a := Augmented(name, category, chapter, no, content);
    assert a == h + content;
    assert a[..|NameLabel|] == h[..|NameLabel|];
  }

  /** The metadata keys `_splitter` reads, in the order it reads them. */
  const AugmentKeys: seq<string> := ["law_name", "law_category", "law_article_chapter", "law_article_no"]

  /** The first key of `AugmentKeys` missing from `meta`, if any. */
  function FirstMissing(meta: map<string, MetaValue>, keys: seq<string>): (r: Option<string>)
    ensures r.None? <==> forall k | k in keys :: k in meta
    ensures r.Some? ==> r.value in keys && r.value !in meta
  {
    if keys == [] then None
    else if keys[0] !in meta then Some(keys[0])
    else FirstMissing(meta, keys[1..])
  }

  /** With no key missing, each of the four keys is present. */
  lemma FirstMissingNone(meta: map<string, MetaValue>)
    requires FirstMissing(meta, AugmentKeys).None?
    ensures "law_name" in meta && "law_category" in meta
    ensures "law_article_chapter" in meta && "law_article_no" in meta
  {
    assert AugmentKeys[0] in AugmentKeys && AugmentKeys[1] in AugmentKeys;
    assert AugmentKeys[2] in AugmentKeys && AugmentKeys[3] in AugmentKeys;
  }

  /** One chunk after the loop body of `_splitter`: a missing metadata key
      raises KeyError before the content is touched. */
  function AugmentDoc(d: Doc): Result<Doc, string> {
    match FirstMissing(d.metadata, AugmentKeys)
    case Some(k) => Err(k)
    case None =>
      Ok(d.(content := Augmented(
        Render(d.metadata["law_name"]), Render(d.metadata["law_category"]),
        Render(d.metadata["law_article_chapter"]), Render(d.metadata["law_article_no"]),
        d.content)))
  }

  /** The chunk list after the loop of `_splitter`, and the KeyError that
      stopped it, if one did: the chunks before the failing one are already
      rewritten, the failing one and those after it are not. */
  function AugmentRun(ds: seq<Doc>): (seq<Doc>, Option<string>) {
    if ds == [] then ([], None)
    else match AugmentDoc(ds[0])
      case Err(k) => (ds, Some(k))
      case Ok(d) =>
        var (rest, err) := AugmentRun(ds[1..]);
        ([d] + rest, err)
  }

  /** When no key is missing, every chunk keeps its metadata and position and
      its old content becomes the suffix of the new content; the count is
      unchanged. */
  lemma {:induction false} AugmentRunKeepsChunks(ds: seq<Doc>)
    requires AugmentRun(ds).1.None?
    ensures var out := AugmentRun(ds).0;
      && |out| == |ds|
      && forall i | 0 <= i < |ds| ::
           && out[i].metadata == ds[i].metadata
           && (forall k | k in AugmentKeys :: k in ds[i].metadata)
           && out[i].content == Augmented(
                Render(ds[i].metadata["law_name"]), Render(ds[i].metadata["law_category"]),
                Render(ds[i].metadata["law_article_chapter"]), Render(ds[i].metadata["law_article_no"]),
                ds[i].content)
  {
    if ds != [] {
      AugmentRunKeepsChunks(ds[1..]);
      var out := AugmentRun(ds).0;
      var tail := AugmentRun(ds[1..]).0;
      assert out == [AugmentDoc(ds[0]).value] + tail;
      forall i | 0 < i < |ds|
        ensures out[i] == tail[i - 1]
      {
      }
    }
  }

  /** A KeyError names a key some chunk lacks; with no error, every chunk had
      all four keys. */
  lemma {:induction false} AugmentRunErrors(ds: seq<Doc>)
    ensures AugmentRun(ds).1.Some? ==>
      exists i | 0 <= i < |ds| :: AugmentRun(ds).1.value in AugmentKeys && AugmentRun(ds).1.value !in ds[i].metadata
    ensures AugmentRun(ds).1.None? <==> forall i | 0 <= i < |ds| :: forall k | k in AugmentKeys :: k in ds[i].metadata
  {
    if ds != [] {
      AugmentRunErrors(ds[1..]);
      if AugmentDoc(ds[0]).Ok? {
        assert forall i | 0 < i < |ds| :: ds[i] == ds[1..][i - 1];
        if AugmentRun(ds).1.Some? {
          var j :| 0 <= j < |ds[1..]| && AugmentRun(ds[1..]).1.value !in ds[1..][j].metadata;
          assert ds[1..][j] == ds[j + 1];
        }
      }
    }
  }

  /** `AugmentRun` from position `i` on, after the chunks before `i` became `done`. */
  predicate AugmentedUpTo(ds: seq<Doc>, i: nat, done: seq<Doc>)
    requires i <= |ds|
  {
    && AugmentRun(ds).0 == done + AugmentRun(ds[i..]).0
    && AugmentRun(ds).1 == AugmentRun(ds[i..]).1
  }

  /** Before the loop nothing is done. */
  lemma AugmentedUpToStart(ds: seq<Doc>)
    ensures AugmentedUpTo(ds, 0, [])
  {
    assert ds[0..] == ds;
    assert [] + AugmentRun(ds).0 == AugmentRun(ds).0;
  }

  /** After the last chunk, everything is done and nothing failed. */
  lemma AugmentedUpToEnd(ds: seq<Doc>, done: seq<Doc>)
    requires AugmentedUpTo(ds, |ds|, done)
    ensures AugmentRun(ds) == (done, None)
  {
    assert ds[|ds|..] == [];
    assert done + [] == done;
  }

  /** One step of the loop: the chunk at `i` is rewritten and joins `done`. */
  lemma AugmentRunStep(ds: seq<Doc>, i: nat, done: seq<Doc>)
    requires i < |ds| && AugmentedUpTo(ds, i, done) && AugmentDoc(ds[i]).Ok?
    ensures AugmentedUpTo(ds, i + 1, done + [AugmentDoc(ds[i]).value])
  {
    assert ds[i..][1..] == ds[i + 1..];
    var d := AugmentDoc(ds[i]).value;
    assert done + ([d] + AugmentRun(ds[i + 1..]).0) == (done + [d]) + AugmentRun(ds[i + 1..]).0;
  }

  /** The loop stops at a chunk lacking a key, leaving it and the rest as they were. */
  lemma AugmentRunStops(ds: seq<Doc>, i: nat, done: seq<Doc>)
    requires i < |ds| && AugmentedUpTo(ds, i, done) && AugmentDoc(ds[i]).Err?
    ensures AugmentRun(ds) == (done + ds[i..], Some(AugmentDoc(ds[i]).error))
  {
  }

  /** Rewriting the first element after `done` moves it into `done`. */
  lemma UpdateAfter(done: seq<Doc>, rest: seq<Doc>, d: Doc)
    requires |rest| > 0
    ensures (done + rest)[|done|] == rest[0]
    ensures (done + rest)[|done| := d] == (done + [d]) + rest[1..]
  {
  }

  /** The chunk at `i` is still the original one, and rewriting it moves it
      into `done`. */
  lemma AugmentFrom(was: seq<Doc>, i: nat, done: seq<Doc>)
    requires i < |was| && |done| == i
    ensures (done + was[i..])[i] == was[i]
    ensures AugmentDoc(was[i]).Ok? ==>
      (done + was[i..])[i := AugmentDoc(was[i]).value] == (done + [AugmentDoc(was[i]).value]) + was[i + 1..]
  {
    assert was[i..][0] == was[i] && was[i..][1..] == was[i + 1..];
    if AugmentDoc(was[i]).Ok? {
      UpdateAfter(done, was[i..], AugmentDoc(was[i]).value);
    }
  }

  /** The loop body of `_splitter` for the `i`-th of distinct chunks: the
      KeyError of its first missing key, or its content rewritten in place. */
  method AugmentAt(docs: seq<Document>, i: nat) returns (missing: Option<string>)
    requires i < |docs|
    requires forall j, k | 0 <= j < k < |docs| :: docs[j] != docs[k]
    modifies docs[i]
    ensures var was := old(Snapshot(docs));
      && (missing.Some? <==> AugmentDoc(was[i]).Err?)
      && (missing.Some? ==> missing.value == AugmentDoc(was[i]).error && Snapshot(docs) == was)
      && (missing.None? ==> Snapshot(docs) == was[i := AugmentDoc(was[i]).value])
  {
    var doc := docs[i];
    missing := FirstMissing(doc.metadata, AugmentKeys);
    if missing.None? {
      FirstMissingNone(doc.metadata);
      doc.pageContent := Augmented(
        Render(doc.metadata["law_name"]), Render(doc.metadata["law_category"]),
        Render(doc.metadata["law_article_chapter"]), Render(doc.metadata["law_article_no"]),
        doc.pageContent);
      assert forall j | 0 <= j < |docs| && j != i :: docs[j] != doc;
    }
  }

  /** `LawEmbeddings._splitter`'s loop over the chunks `text_splitter`
      returned: each chunk's content is rewritten in place, and the loop stops
      at the first chunk lacking one of the keys it reads. The chunks are
      distinct objects. */
  method AugmentChunks(docs: seq<Document>) returns (r: seq<Document>, keyError: Option<string>)
    requires forall i, j | 0 <= i < j < |docs| :: docs[i] != docs[j]
    modifies set d | d in docs
    ensures r == docs
    ensures Snapshot(docs) == AugmentRun(old(Snapshot(docs))).0
    ensures keyError == AugmentRun(old(Snapshot(docs))).1
  {
    ghost var was := Snapshot(docs);
    ghost var done: seq<Doc> := [];
    r := docs;
    var i := 0;
    AugmentedUpToStart(was);
    while i < |docs|
      invariant 0 <= i <= |docs| && |done| == i
      invariant AugmentedUpTo(was, i, done)
      invariant Snapshot(docs) == done + was[i..]
    {
      AugmentFrom(was, i, done);
      var missing := AugmentAt(docs, i);
      if missing.Some? {
        AugmentRunStops(was, i, done);
        return r, missing;
      }
      AugmentRunStep(was, i, done);
      done := done + [AugmentDoc(was[i]).value];
      i := i + 1;
    }
    AugmentedUpToEnd(was, done);
    keyError := None;
  }

  // ---------------------------------------------------------------------------
  // _add_documents

  /** How far the Chroma store got inside the `try` of `_add_documents`. */
  datatype StoreOutcome = StoreConstructionFails | AddFails | PersistFails | StoreCompletes

  /** The listing of collection names after the `try`: it is outside the
      handler, so an exception there propagates. */
  datatype AddError = ListingRaised

  /** `_add_documents`: an exception inside the `try` is logged and turns the
      result to False; only an add and persist that both complete give True. */
  function AddDocuments(store: StoreOutcome, listingRaises: bool): (r: Result<bool, AddError>)
    ensures r.Ok? <==> !listingRaises
    ensures r == Ok(true) <==> store == StoreCompletes && !listingRaises
  {
    var returnValue := store == StoreCompletes;
    if listingRaises then Err(ListingRaised) else Ok(returnValue)
  }

  // ---------------------------------------------------------------------------
  // run

  /** The percentage used when `PERCENTAGE_OF_DOCUMENTS_TO_BE_PROCESSED` is unset. */
  const DefaultPercentage: int := 1

  /** Python's `int(a / b)` for a positive `b`, with the division taken as
      exact: the quotient truncated toward zero. */
  function TruncDiv(a: int, b: int): (q: int)
    requires b > 0
    ensures a >= 0 ==> q >= 0 && q * b <= a < q * b + b
    ensures a < 0 ==> q <= 0 && q * b - b < a <= q * b
  {
    if a >= 0 then
      EuclidBounds(a, b);
      a / b
    else
      EuclidBounds(-a, b);
      -((-a) / b)
  }

  /** Dafny's division of a natural number rounds down. */
  lemma EuclidBounds(n: nat, b: int)
    requires b > 0
    ensures (n / b) * b <= n < (n / b) * b + b
  {
  }

  /** Python's `s[:k]`: a negative `k` counts from the end; both ends clip. */
  function PrefixSlice<T>(s: seq<T>, k: int): (r: seq<T>)
    ensures |r| <= |s| && r == s[..|r|]
    ensures k >= 0 ==> |r| == if k <= |s| then k else |s|
    ensures k < 0 ==> |r| == if |s| + k >= 0 then |s| + k else 0
  {
    if k >= |s| then s
    else if k >= 0 then s[..k]
    else if |s| + k >= 0 then s[..|s| + k]
    else []
  }

  /** The cut in `run`: below 100 percent only the first `int(n * p / 100)`
      documents are kept. */
  function CutDocuments<T>(docs: seq<T>, percentage: int): seq<T> {
    if percentage < 100 then PrefixSlice(docs, TruncDiv(|docs| * percentage, 100)) else docs
  }

  /** The cut always keeps a prefix; from 0 to 99 percent it keeps
      floor(n * p / 100) documents, from 100 up all of them. */
  lemma CutDocumentsKeepsPrefix<T>(docs: seq<T>, percentage: int)
    ensures var r := CutDocuments(docs, percentage);
      && r == docs[..|r|]
      && (0 <= percentage < 100 ==> |r| == |docs| * percentage / 100)
      && (percentage >= 100 ==> r == docs)
  {
    if 0 <= percentage < 100 {
      MulBelow(|docs|, percentage);
    }
  }

  lemma MulBelow(n: nat, p: nat)
    requires p < 100
    ensures n * p / 100 <= n
  {
    assert n * p <= n * 100;
  }

  /** ASCII lower-casing. No other character lowers to 'y', 'e' or 's', so
      Python's `str.lower()` agrees with it on the answers compared here. */
  function LowerAscii(s: string): (r: string)
    ensures |r| == |s|
    ensures forall i | 0 <= i < |s| :: r[i] == if 'A' <= s[i] <= 'Z' then (s[i] as int + 32) as char else s[i]
  {
    seq(|s|, i requires 0 <= i < |s| => if 'A' <= s[i] <= 'Z' then (s[i] as int + 32) as char else s[i])
  }

  /** `proceed.lower() in ["yes", "y"]`. */
  predicate Confirmed(answer: string) {
    LowerAscii(answer) in ["yes", "y"]
  }

  /** The accepted answers are exactly "y" and "yes" in any mix of cases. */
  lemma ConfirmedIff(answer: string)
    ensures Confirmed(answer) <==>
      || (|answer| == 1 && answer[0] in "yY")
      || (|answer| == 3 && answer[0] in "yY" && answer[1] in "eE" && answer[2] in "sS")
  {
    var l := LowerAscii(answer);
    if |answer| == 1 {
      assert l == [l[0]];
    } else if |answer| == 3 {
      assert l == [l[0], l[1], l[2]];
    }
  }

  /** How `run` ends. */
  datatype RunOutcome =
    | NothingLoaded                 // no document loaded: returns before any work
    | SplitRaised(key: string)      // `_splitter` raised KeyError
    | FirstChunkMissing             // `chunked_documents[0]` raised IndexError
    | Cancelled                     // the answer was not yes/y
    | PoolRejected                  // `Pool(processes=0)` raised ValueError
    | Submitted(chunks: seq<Doc>, batches: seq<seq<Doc>>, batchSize: nat, workers: nat)

  /** The steps of `run`, given the loaded documents, the percentage setting,
      the subclass's `_splitter`, the typed answer and `os.cpu_count()`. */
  function Run(loaded: seq<Doc>, percentage: int, split: seq<Doc> -> Result<seq<Doc>, string>,
               answer: string, cpuCount: nat): RunOutcome
  {
    if |loaded| == 0 then NothingLoaded
    else
      var docs := ReplaceCjkAll(CutDocuments(loaded, percentage));
      match split(docs)
      case Err(key) => SplitRaised(key)
      case Ok(chunks) =>
        if |chunks| == 0 then FirstChunkMissing
        else if !Confirmed(answer) then Cancelled
        else
          var (batches, size) := Batching.Chunker(chunks).value;
          var workers := cpuCount - 1;
          if workers < 1 then PoolRejected
          else Submitted(chunks, batches, size, workers)
  }

  /** `LawEmbeddings._splitter`: the text splitter, then the augmentation loop. */
  function LawSplitter(textSplit: seq<Doc> -> seq<Doc>, docs: seq<Doc>): Result<seq<Doc>, string> {
    var (out, err) := AugmentRun(textSplit(docs));
    if err.Some? then Err(err.value) else Ok(out)
  }

  /** `_splitter` succeeds exactly when every chunk of the text splitter has
      the four keys; it then returns one rewritten chunk per chunk, with the
      same metadata, and otherwise raises KeyError for a key some chunk lacks. */
  lemma LawSplitterAugments(textSplit: seq<Doc> -> seq<Doc>, docs: seq<Doc>)
    ensures var chunks := textSplit(docs);
      && (LawSplitter(textSplit, docs).Ok? <==>
            forall i | 0 <= i < |chunks| :: forall k | k in AugmentKeys :: k in chunks[i].metadata)
      && (LawSplitter(textSplit, docs).Ok? ==>
            && |LawSplitter(textSplit, docs).value| == |chunks|
            && forall i | 0 <= i < |chunks| :: LawSplitter(textSplit, docs).value[i].metadata == chunks[i].metadata)
      && (LawSplitter(textSplit, docs).Err? ==>
            && LawSplitter(textSplit, docs).error in AugmentKeys
            && exists i | 0 <= i < |chunks| :: LawSplitter(textSplit, docs).error !in chunks[i].metadata)
  {
    AugmentRunErrors(textSplit(docs));
    if AugmentRun(textSplit(docs)).1.None? {
      AugmentRunKeepsChunks(textSplit(docs));
    }
  }

  /** `run` with `LawEmbeddings._splitter` stops with a KeyError exactly when
      some chunk of the cut, space-replaced documents lacks one of the four
      keys. */
  lemma LawRunRaisesOnMissingKey(loaded: seq<Doc>, percentage: int, textSplit: seq<Doc> -> seq<Doc>,
                                 answer: string, cpuCount: nat)
    requires |loaded| > 0
    ensures var chunks := textSplit(ReplaceCjkAll(CutDocuments(loaded, percentage)));
      var out := Run(loaded, percentage, d => LawSplitter(textSplit, d), answer, cpuCount);
      && (out.SplitRaised? <==>
            exists i | 0 <= i < |chunks| :: exists k | k in AugmentKeys :: k !in chunks[i].metadata)
      && (out.SplitRaised? ==> out.key in AugmentKeys)
  {
    LawSplitterAugments(textSplit, ReplaceCjkAll(CutDocuments(loaded, percentage)));
  }

  /** Work is submitted only after a yes/y answer, for a non-empty load, with
      at least one worker; then every chunk is in exactly one batch, in order,
      full batches of the chosen size, and the chunks are what the splitter
      produced from the cut, space-replaced documents. */
  lemma RunSubmitsEveryChunk(loaded: seq<Doc>, percentage: int, split: seq<Doc> -> Result<seq<Doc>, string>,
                             answer: string, cpuCount: nat)
    requires Run(loaded, percentage, split, answer, cpuCount).Submitted?
    ensures var out := Run(loaded, percentage, split, answer, cpuCount);
      && Confirmed(answer) && |loaded| > 0 && cpuCount >= 2
      && split(ReplaceCjkAll(CutDocuments(loaded, percentage))) == Ok(out.chunks)
      && Batching.Flatten(out.batches) == out.chunks
      && (forall k | 0 <= k < |out.batches| - 1 :: |out.batches[k]| == out.batchSize)
      && |out.batches| == (|out.chunks| + out.batchSize - 1) / out.batchSize
  {
    var out := Run(loaded, percentage, split, answer, cpuCount);
    Batching.ChunkerPartitions(out.chunks);
  }

  /** Every answer other than y/yes stops a run that got as far as asking. */
  lemma RunCancelledUnlessConfirmed(loaded: seq<Doc>, percentage: int, split: seq<Doc> -> Result<seq<Doc>, string>,
                                    answer: string, cpuCount: nat)
    requires |loaded| > 0
    requires split(ReplaceCjkAll(CutDocuments(loaded, percentage))).Ok?
    requires |split(ReplaceCjkAll(CutDocuments(loaded, percentage))).value| > 0
    ensures Run(loaded, percentage, split, answer, cpuCount) == Cancelled <==> !Confirmed(answer)
  {
  }

  /** With the default of 1 percent, fewer than 100 loaded documents are cut to
      none; if the splitter then yields no chunk, the run stops with IndexError
      at the debug line before anything is asked or written. */
  lemma DefaultPercentageEmptiesSmallLoads(loaded: seq<Doc>, split: seq<Doc> -> Result<seq<Doc>, string>,
                                           answer: string, cpuCount: nat)
    requires 1 <= |loaded| < 100
    requires split([]) == Ok([])
    ensures CutDocuments(loaded, DefaultPercentage) == []
    ensures Run(loaded, DefaultPercentage, split, answer, cpuCount) == FirstChunkMissing
  {
    assert |loaded| * DefaultPercentage / 100 == 0;
    assert ReplaceCjkAll([]) == [];
  }
}
