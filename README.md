# Law data preparation pipeline, modelled in Dafny

This project models the data preparation that a Taiwanese-law question
answering service runs before any embedding or language-model call. It
covers these parts:

- **Law-record transform** (`LawTransform`, `TransformProps`). Raw law records
  are flattened into one `Law` row per article. Abandoned laws are dropped,
  and so are laws outside the allowed categories. A chapter heading stays in
  force until the next one. Spaces and box-drawing glyphs are removed from
  the chapter, the article number and the content.
- **Record types** (`LawDto`). The seven-string `Law` record and the ordered
  `LawCollection`, with the JSON object each record is written as.
- **Batching** (`Batching`). A tiered batch size is picked from the document
  count, and the list is cut into consecutive slices of that size.
- **Documents** (`Documents`). The LangChain document objects, the
  full-width space replacement, and the metadata mapping applied to every
  loaded JSON record.
- **Index builder** (`IndexEmbeddings`). The steps of `Embeddings.run`:
  - the percentage cut;
  - the in-place space replacement;
  - the augmented chunk text written by `LawEmbeddings._splitter`;
  - the yes/y confirmation;
  - the result of `_add_documents`.
- **Law embeddings job** (`LawEmbeddings`):
  - the 10% debug cut;
  - the queue of collection-partition names shared by the writers;
  - the take-a-name, write, put-it-back discipline of `add_documents`;
  - the submission of every batch.
- **Command line** (`Cli`). The tab-separated text file written next to
  each transformed collection, and the order in which the three flags run
  their steps.
- **Google search tool** (`GoogleSearch`). The site-name prefix on the query
  and the site-link filter on the results.

Code that changes state in place is modelled with classes and methods:
- `Document` objects whose content is rewritten;
- the metadata dict;
- the partition queue;
- the text file.

Most methods are proved equal to a specification function of their
inputs and the old state: `PlaceCjkSpace` to `ReplaceCjkAll`,
`AugmentChunks` to `AugmentRun`, `MetadataFunc` to `ExtractMetadata`,
`SeedPool` to `SeedNames`, `AddDocuments` to `AddStep`, `SubmitBatches`
to `SubmitAll`, `RunTransformer` to `Transformer`, `WriteTsv` to
`TsvText`, `FilterResults` to `KeepFromSite` and `LawTransform.Transformer`
to `Transform`. The properties are then proved as lemmas about those
functions. The one-line methods `TextFile.Write`, `PartitionPool.Put` and
`PartitionPool.Get` state their new state directly.
The pure parts are functions and lemmas. External services are inputs of
the model: the text splitter, the vector store and the search API. Each
write's outcome, the typed answer and the CPU count are inputs as well.

Behaviour of the code worth stating on its own:
- **Batch size for 500 documents.** `chunker` divides a list of 101 to
  1000 items by 100, so 500 documents give a batch size of 5 and 100
  batches (`Batching.ChunkerExamples`).
- **Failed writes.** `add_documents` in `app/embeddings/law.py` has no
  `try`, so an add or persist that raises loses its partition name
  (`LawEmbeddings.FailedWriteLosesName`). Once as many writes have failed
  as there are partitions, the next write waits forever
  (`LawEmbeddings.LostNamesDeadlock`).

Other behaviour of the code that the model keeps as written:
- **Default percentage.** `PERCENTAGE_OF_DOCUMENTS_TO_BE_PROCESSED`
  defaults to 1, so fewer than 100 loaded documents are cut to none.
  `run` then fails with an IndexError when it logs the first chunk
  (`IndexEmbeddings.DefaultPercentageEmptiesSmallLoads`).
- **One CPU.** A machine with one CPU asks for a pool of zero processes,
  which raises (`IndexEmbeddings.RunOutcome.PoolRejected`).
- **Few articles.** With fewer than ten articles, the 10% cut leaves
  nothing, and `chunker` raises on the empty list
  (`LawEmbeddings.FewArticlesRaise`).
- **Leftover article.** An entry that is neither a chapter nor an article
  reuses the last article number and content. That article may come from
  an earlier law (`TransformProps.LeftoverArticleCrossesLaws`).

## Model

| member | source | states |
|---|---|---|
| LawDto.ToJsonObject | app/dto/law.py:5-13 | the JSON object of a record has exactly the seven field names as its keys |
| LawDto.FromJsonObject | app/dto/law.py:5-13 | a JSON object reads back as a record exactly when all seven keys are present |
| LawDto.JsonRoundTrip | app/dto/law.py:5-13 | writing a record as JSON and reading it back gives the same record |
| LawDto.ToJsonList | app/dto/law.py:16-18 | a collection's `data` list holds one object per article, in order, and each object reads back as its article |
| LawDto.FromJsonObjects | app/dto/law.py:16-18 | a list of objects reads back exactly when every object has all seven keys, giving one article per object, in order |
| LawDto.ToJsonFile | app/main.py:26 | the JSON file is one object whose `data` key holds one object per article, and it reads back as the same collection |
| LawTransform.RemoveSpaceIsFilter | app/assets/transform.py:39-40 | `remove_space` (`LawTransform.RemoveSpace`) deletes exactly the ASCII space and the five box-drawing glyphs, and keeps every other character in order |
| LawTransform.RemoveSpaceCounts | app/assets/transform.py:39-40 | after `remove_space` no noise character remains, and every other character has as many occurrences as before, the full-width space U+3000 included |
| LawTransform.RemoveSpaceKeepsCleanText | app/assets/transform.py:39-40 | text without any of the six characters is returned unchanged |
| LawTransform.RemoveSpaceIdempotent | app/assets/transform.py:39-40 | applying `remove_space` twice is the same as applying it once |
| LawTransform.Lookup | app/assets/transform.py:50-57 | a dictionary lookup succeeds exactly when the key is present, and otherwise fails with a KeyError naming that key |
| LawTransform.Transformer | app/assets/transform.py:43-109 | the nested loops return what the recursive definition `Transform` gives for every input, error cases included |
| LawTransform.ArticlesLoop | app/assets/transform.py:84-107 | the loop over one kept law's entries, started with an empty chapter, gives the rows, chapter, last article or error that the recursive definition `RunArticles` gives |
| TransformProps.SkippedLawIsInvisible | app/assets/transform.py:66-80 | a law that is abandoned or outside the allowed categories leaves the result exactly as if it were absent from the input |
| TransformProps.AbandonedLawContributesNothing | app/assets/transform.py:66-69 | a law with a non-empty abandonment note contributes no rows |
| TransformProps.DisallowedCategoryContributesNothing | app/assets/transform.py:71-80 | with a non-empty category list, a law whose category contains none of the entries contributes no rows |
| TransformProps.CategoryFilterExample | app/assets/transform.py:71-80 | an allowed entry that occurs inside the category keeps the law, one that does not drops it, and an empty list keeps every law |
| TransformProps.ChapterRestartsPerLaw | app/assets/transform.py:83-84 | a kept law's rows do not depend on the chapter the previous law ended with |
| TransformProps.ChapterEntryEmitsNothing | app/assets/transform.py:86-88 | a chapter entry adds no row and becomes the current chapter |
| TransformProps.ArticleEntryEmitsOneRow | app/assets/transform.py:89-107 | an article entry adds one row: the header fields are copied, and chapter, number and content pass through `remove_space` |
| TransformProps.OtherEntryReusesLastArticle | app/assets/transform.py:85-107 | an entry of another type adds a row built from the last article; with no article seen yet it fails with UnboundLocalError |
| TransformProps.LeftoverArticleCrossesLaws | app/assets/transform.py:49-107 | the last article of one law is reused by an entry of another type in the next law |
| TransformProps.RemoveSpaceNormalises | app/assets/transform.py:39-40 | the output of `remove_space` holds none of the six deleted characters |
| TransformProps.OutputExtendsPrefixOutput | app/assets/transform.py:107 | rows are only appended: the rows for a prefix of the laws are a prefix of the rows for all of them |
| TransformProps.TransformRowsNormalised | app/assets/transform.py:94-106 | every emitted chapter, article number and content is free of spaces and box-drawing glyphs |
| TransformProps.TransformMatchesReference | app/assets/transform.py:43-109 | on well-formed input the transform (`LawTransform.Transform`) succeeds and returns exactly the reference rows: the kept laws in order, each with one row per article entry |
| TransformProps.OneRowPerArticle | app/assets/transform.py:84-107 | a law with well-formed entries yields exactly one row per article entry |
| TransformProps.ChapterSticks | app/assets/transform.py:86-107 | between two chapter entries, every article takes the chapter most recently set |
| TransformProps.ChapterStickinessExample | app/assets/transform.py:83-107 | the entries [chapter, article 1, article 2] give two rows, both under that chapter |
| TransformProps.MissingHeaderKeyAborts | app/assets/transform.py:50-57 | after laws that raise nothing, a law lacking one of its five header keys aborts the whole call with that KeyError and no partial result |
| TransformProps.UnboundArticleAborts | app/assets/transform.py:89-96 | an entry of unknown type before any article entry aborts with UnboundLocalError |
| TransformProps.EntryMissingKey | app/assets/transform.py:85-91 | an entry raises no KeyError and is well-formed exactly when it has its type, is 'C' or 'A', and has the keys that type reads; otherwise the first key read that is missing is reported |
| TransformProps.MissingEntryKeyStops | app/assets/transform.py:84-91 | after well-formed entries, an entry lacking a key it reads stops the loop over entries with that KeyError |
| TransformProps.MissingArticlesAborts | app/assets/transform.py:84 | a kept law without `LawArticles`, after laws that raise nothing, aborts the whole call with KeyError('LawArticles') |
| TransformProps.MissingEntryKeyAborts | app/assets/transform.py:49-91 | in a kept law after laws that raise nothing, an entry after well-formed entries that lacks `ArticleType`, `ArticleNo` or `ArticleContent` aborts the whole call with KeyError for that key |
| Batching.Chunker | app/util/tqdm.py:4-15 | `chunker` fails exactly on an empty list; otherwise it returns a positive batch size and the slices made with that size |
| Batching.ChunkByBatchSize | app/util/tqdm.py:18-22 | a step of 0 raises and only it does; a negative step gives no batches; a positive one gives batches that concatenate to the input, all full but the last, which is non-empty and no larger |
| Batching.SlicesFlatten | app/util/tqdm.py:18-22 | concatenating the batches in order gives back the input |
| Batching.SliceSizes | app/util/tqdm.py:18-22 | every batch but the last holds exactly the batch size; the last is non-empty and no larger |
| Batching.SliceCount | app/util/tqdm.py:18-22 | there are ceil(n / size) batches |
| Batching.SliceAt | app/util/tqdm.py:18-22 | batch k is `documents[k*size : k*size + size]`, clipped at the end |
| Batching.BatchSizeBounds | app/util/tqdm.py:4-12 | a non-empty list gets a batch size between 1 and its length, up to 100 documents get their own count, and only the empty list gets 0 |
| Batching.BatchCountRanges | app/util/tqdm.py:4-15 | the tiers give 100-199 batches for 101-1000 documents, 1000-1999 for 1001-10000, and 10000-19999 above that |
| Batching.ChunkerRejectsEmpty | app/util/tqdm.py:4-22 | an empty list makes `range` raise for a step of 0, so `chunker([])` fails |
| Batching.ChunkerSingleBatch | app/util/tqdm.py:11-15 | 1 to 100 documents come back as one batch holding all of them |
| Batching.ChunkerPartitions | app/util/tqdm.py:4-22 | a successful `chunker` call partitions the input in order, with full batches of the returned size and ceil(n / size) batches |
| Batching.ChunkerExamples | app/util/tqdm.py:4-15 | 50000 documents give size 5 and 10000 batches; 500 documents give size 5 and 100 batches |
| Documents.ReplaceCjk | app/index/embeddings.py:58-59 | the replacement keeps the length, turns each U+3000 into a space, leaves every other character in place, and leaves no U+3000 |
| Documents.ReplaceCjkIdempotent | app/index/embeddings.py:58-59 | replacing twice is replacing once |
| Documents.ReplaceCjkKeepsPlainText | app/index/embeddings.py:58-59 | text without U+3000 is unchanged |
| Documents.Get | app/index/embeddings.py:253-257 | `record.get(key)` gives the value exactly when the key is present, and None otherwise |
| Documents.ExtractMetadataFills | app/embeddings/law.py:20-25 | the five law keys are set from the record, None where the record lacks them |
| Documents.ExtractMetadataFrame | app/embeddings/law.py:27-31 | `source` becomes the URL exactly when `LawURL` is non-empty, and otherwise stays as it was; no other key changes, none is removed, none is added |
| Documents.MetadataDict.MetadataFunc | app/index/embeddings.py:249-263 | the dict is updated in place to the mapping above, and the same dict is returned |
| IndexEmbeddings.ReplaceCjkAll | app/index/embeddings.py:57-60 | each document keeps its position and metadata, and its content goes through the replacement |
| IndexEmbeddings.ReplaceCjkAllIdempotent | app/index/embeddings.py:57-60 | normalising a document list twice is normalising it once |
| IndexEmbeddings.PlaceCjkSpace | app/index/embeddings.py:52-60 | the same list is returned, and its documents end up with the normalised contents of their old values, even when the list holds a document twice |
| IndexEmbeddings.AugmentedSplits | app/index/embeddings.py:243 | the augmented text starts with the law-name label and ends with the old content, which removing the header gives back |
| IndexEmbeddings.FirstMissing | app/index/embeddings.py:237-240 | no key is reported missing exactly when all four keys are present; a reported key is one of them and is absent |
| IndexEmbeddings.AugmentRunKeepsChunks | app/index/embeddings.py:236-246 | without a KeyError, the chunk count and every chunk's metadata stay the same, and each content becomes the template over its metadata followed by the old content |
| IndexEmbeddings.AugmentRunErrors | app/index/embeddings.py:236-240 | a KeyError names a key some chunk lacks, and no error happens exactly when every chunk has all four keys |
| IndexEmbeddings.LawSplitterAugments | app/index/embeddings.py:229-246 | `_splitter` succeeds exactly when every chunk of the text splitter has the four keys, and then returns as many chunks with the same metadata; otherwise its KeyError names one of the four keys that some chunk lacks |
| IndexEmbeddings.LawRunRaisesOnMissingKey | app/index/embeddings.py:122-139 | `run` with the law splitter stops with a KeyError exactly when some chunk of the cut, space-replaced documents lacks one of the four keys |
| IndexEmbeddings.AugmentAt | app/index/embeddings.py:237-245 | one chunk either fails with its first missing key and stays unchanged, or has its content rewritten in place while the other chunks stay as they were |
| IndexEmbeddings.AugmentChunks | app/index/embeddings.py:236-246 | the loop leaves the chunks and the KeyError exactly as the recursive definition does: chunks before a failing one are rewritten, the rest untouched |
| IndexEmbeddings.AddDocuments | app/index/embeddings.py:77-104 | the result is True only when the add and the persist both complete; an exception in the listing after the `try` propagates |
| IndexEmbeddings.TruncDiv | app/index/embeddings.py:125-126 | `int(a / b)` truncates toward zero: for a >= 0 the quotient is the largest q >= 0 with q * b <= a, for a < 0 the smallest q <= 0 with a <= q * b |
| IndexEmbeddings.PrefixSlice | app/index/embeddings.py:125-126 | `s[:k]` is a prefix of `s`, clipped at both ends, and a negative `k` counts from the end |
| IndexEmbeddings.CutDocumentsKeepsPrefix | app/index/embeddings.py:122-126 | the cut keeps a prefix: floor(n * p / 100) documents for 0 to 99 percent, and all documents from 100 percent up |
| IndexEmbeddings.LowerAscii | app/index/embeddings.py:155 | lower-casing keeps the length, maps A-Z to a-z, and keeps every other character |
| IndexEmbeddings.ConfirmedIff | app/index/embeddings.py:154-159 | the run goes on exactly for "y" or "yes" in any mix of cases |
| IndexEmbeddings.RunSubmitsEveryChunk | app/index/embeddings.py:115-188 | in `run` (`IndexEmbeddings.Run`), work is submitted only for a non-empty load, after a yes/y answer, with at least one worker; every chunk the splitter made from the cut documents is then in exactly one batch, in order |
| IndexEmbeddings.RunCancelledUnlessConfirmed | app/index/embeddings.py:154-159 | a run that reaches the prompt is cancelled exactly when the answer is not yes/y |
| IndexEmbeddings.DefaultPercentageEmptiesSmallLoads | app/index/embeddings.py:122-139 | with the default 1 percent, fewer than 100 loaded documents are cut to none, and the run fails with IndexError before asking anything |
| LawEmbeddings.SeedNames | app/embeddings/law.py:109-114 | the seeded names are `prefix_0` to `prefix_{k-1}` in increasing order, and none when k < 1 |
| LawEmbeddings.PartitionNamesDistinct | app/embeddings/law.py:111 | different indices give different partition names |
| LawEmbeddings.SeedNamesDistinct | app/embeddings/law.py:109-114 | the seeded pool holds no name twice |
| LawEmbeddings.PartitionPool.Put | app/embeddings/law.py:63 | a put appends the name at the back of the queue |
| LawEmbeddings.PartitionPool.Get | app/embeddings/law.py:56 | a get removes and returns the front name; an empty queue gives no name and stays empty |
| LawEmbeddings.SeedPool | app/embeddings/law.py:109-114 | seeding appends exactly the k partition names, in order |
| LawEmbeddings.AddDocuments | app/embeddings/law.py:47-64 | one write's effect on the queue and its result match the step function `AddStep` |
| LawEmbeddings.CompletedWriteKeepsNames | app/embeddings/law.py:56-64 | a completed write moves the front name to the back and returns True; the queue holds the same names |
| LawEmbeddings.FailedWriteLosesName | app/embeddings/law.py:56-63 | a write whose add or persist raises loses the name it took, and the queue shrinks by one |
| LawEmbeddings.SubmitAllAccounts | app/embeddings/law.py:123-128 | every batch gets one result, and the queue ends smaller by exactly the number of writes that raised after taking a name, with no new name |
| LawEmbeddings.AllCompletedKeepsNames | app/embeddings/law.py:123-128 | when every write completes, all return True and the queue keeps its names |
| LawEmbeddings.EmptyPoolBlocks | app/embeddings/law.py:56 | with an empty queue, every write that gets past building its client waits forever |
| LawEmbeddings.FailuresDrainPool | app/embeddings/law.py:56-63 | as many failing writes as there are names empty the queue |
| LawEmbeddings.LostNamesDeadlock | app/embeddings/law.py:109-132 | k partitions and k failed adds leave the next write waiting forever, so the job never finishes |
| LawEmbeddings.SubmitBatches | app/embeddings/law.py:123-132 | the submission loop leaves the queue and the results as the sequential definition `SubmitAll` does |
| LawEmbeddings.DebugCut | app/embeddings/law.py:87 | the cut keeps the first floor(n / 10) articles |
| LawEmbeddings.RunTransformer | app/embeddings/law.py:68-135 | the job's statements give the outcome the functional definition `Transformer` gives |
| LawEmbeddings.TransformerSubmitsEveryDocument | app/embeddings/law.py:87-128 | every split document is submitted in exactly one batch, in order, with one write per batch; the queue ends with k names minus one per failed write |
| LawEmbeddings.FewArticlesRaise | app/embeddings/law.py:87-102 | fewer than ten articles leave nothing to batch, and `chunker` raises |
| Cli.TextFile.Write | app/main.py:30 | a write appends the text to the file |
| Cli.WriteTsv | app/main.py:28-30 | the file is truncated and ends up holding one row (`Cli.TsvRow`) per article, in collection order |
| Cli.TsvRoundTrip | app/main.py:47-49 | when no field holds a tab or a line break, the file reads back as one line per article holding category, chapter, number and content |
| Cli.TransformFiles | app/main.py:22-30 | the JSON file and the text file are written exactly when the transform succeeds; the JSON file's `data` list holds one object per article and reads back as the transformed collection, and the text holds one row per article |
| Cli.RunCommand | app/main.py:86-92 | each flag runs its steps on its own, each step at most once; the steps run in the order law transform, order transform, law embeddings, order embeddings; law embeddings use ('law', 4, 900, 100) and order embeddings ('order', 4, 800, 100) |
| GoogleSearch.SearchQuery | app/tools/google.py:22-23 | the search text ends with the query; a truthy site name starts it, followed by one space; otherwise it is the query alone |
| GoogleSearch.FilterResults | app/tools/google.py:33-45 | the loop keeps the results, or raises, exactly as the recursive definition `KeepFromSite` does |
| GoogleSearch.Search | app/tools/google.py:10-45 | a falsy query gets the message and no search is made; otherwise the wrapper is asked for ten results for the prefixed query, and they are filtered |
| GoogleSearch.KeepFromSiteFails | app/tools/google.py:40 | the filter fails exactly when a site link is given and some result has no link, and it fails with a TypeError |
| GoogleSearch.KeepFromSiteSelects | app/tools/google.py:33-45 | the kept results are a subsequence of the search results, in order; a result is kept exactly when it passes the link test, and then as many times as it occurs |
| GoogleSearch.KeepFromSiteKeepsAll | app/tools/google.py:40-43 | without a truthy site link every result is kept, in order |
| GoogleSearch.KeepFromSiteBySite | app/tools/google.py:40-43 | with a site link, a result is kept exactly when its link contains the site link |

## Left out

- File input and output are not modelled. This covers:
  - `loader` (app/assets/transform.py:32-35);
  - the JSON file writers and their formatting (indent, `ensure_ascii`);
  - the `.documents` dump files;
  - the UTF-8 encoding of the text file.
  Texts are modelled as sequences of characters.
- Environment variables (file paths, `PERCENTAGE_OF_DOCUMENTS_TO_BE_PROCESSED`) and argument parsing are inputs. A percentage value that is not an integer, which raises in the source, is not modelled.
- Logging, progress bars, `time.sleep` and `calculate_embedding_cost` are left out. They do not change any state the model keeps.
- LangChain is not part of this model: the loaders, `text_splitter`, `RecursiveCharacterTextSplitter` and the `splitter` of app/embeddings/law.py:35-43. The splitter is a function parameter.
- Chroma, the embedder and `chromadb` are not part of this model. Each write's outcome, and whether the listing raises, are parameters. `_init_vectorstore` is left out because it only creates an empty store.
- The process pool and the manager queue are modelled sequentially, in submission order. Some effects of parallel work are not captured: completion order, several workers blocked at once, and the error callback.
- `IndexEmbeddings.Run` stops at the submission of the batches. The writes themselves are `IndexEmbeddings.AddDocuments`.
- `InvestigationReportEmbeddings` and `NewsEmbeddings` are not modelled; they differ only in the loader and the splitter.
- `assets.law`, which app/main.py imports, is not part of this model. `Cli.TransformFiles` uses the transform of app/assets/transform.py with an empty category list.
- JSON values are modelled as strings. A `LawArticles` entry is modelled as an optional list. Non-string values in the records are not modelled.
- `os.cpu_count()` returning None is not modelled: the CPU count is a natural number.
- LawEmbeddings.PartitionPool.Get: in the source, `queue.get()` on an empty queue waits forever. The model returns no name and leaves the queue unchanged, and a write in that state ends as `Blocked`.
- IndexEmbeddings.AugmentAt: requires the chunks to be distinct objects, like `IndexEmbeddings.AugmentChunks` below. A list holding the same chunk twice is not covered.
- IndexEmbeddings.AugmentChunks: requires the chunks to be distinct objects, as the text splitter creates a new object for every chunk. Lists that hold the same chunk twice are not covered.
- IndexEmbeddings.TruncDiv: `int(n * p / 100)` divides in floating point in the source; the model takes the division as exact, so floating-point rounding is not modelled.
- IndexEmbeddings.CutDocumentsKeepsPrefix: the cut size rests on `IndexEmbeddings.TruncDiv`, so floating-point rounding is not modelled here either.
- LawEmbeddings.DebugCut: `int(n * 0.1)` multiplies by a floating-point 0.1 in the source; the model takes the product as exactly n / 10, so floating-point rounding is not modelled.
- Batching.BatchSize: `int(n / 10000)`, `int(n / 1000)` and `int(n / 100)` divide in floating point in the source; the model takes the divisions as exact, so floating-point rounding is not modelled.
- IndexEmbeddings.LowerAscii: lower-cases ASCII letters only. No other character lowers to "y", "e" or "s", so the yes/y test agrees with Python's `str.lower()`.
- GoogleSearch.Search: building the API wrapper is a boolean parameter. The search itself is a function parameter, and titles and snippets are carried but never inspected. A `site_name` or `site_link` that is not a string is not modelled.
