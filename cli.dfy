// app/main.py: the tab-separated text file written next to each transformed
// collection, and the order in which the command-line flags run the steps.
module Cli {
  import opened Common
  import opened LawDto
  import LawTransform
  import LawEmbeddings

  // ---------------------------------------------------------------------------
  // The tab-separated rows

  /** `f'{LawCategory}\t{LawArticleChapter}\t{LawArticleNo}\t{LawArticleContent}\n'`. */
  function TsvRow(law: Law): string {
    law.LawCategory + "\t" + law.LawArticleChapter + "\t" + law.LawArticleNo + "\t" + law.LawArticleContent + "\n"
  }

  /** The whole file: one row per article, in collection order. */
  function TsvText(laws: seq<Law>): string {
    if laws == [] then "" else TsvRow(laws[0]) + TsvText(laws[1..])
  }

  /** An open text file. */
  class TextFile {
    var contents: string

    constructor ()
      ensures contents == ""
    {
      contents := "";
    }

    /** `f.write(text)`. */
    method Write(text: string)
      modifies this
      ensures contents == old(contents) + text
    {
      contents := contents + text;
    }
  }

  /** `with open(path, 'w') as f: for article in collection.data: f.write(...)`:
      the file is truncated, then the rows are written in order. */
  method WriteTsv(f: TextFile, collection: LawCollection)
    modifies f
    ensures f.contents == TsvText(collection.data)
  {
    f.contents := "";
    var laws := collection.data;
    var i := 0;
    while i < |laws|
      invariant 0 <= i <= |laws|
      invariant f.contents + TsvText(laws[i..]) == TsvText(laws)
    {
      assert laws[i..][1..] == laws[i + 1..];
      ghost var before := f.contents;
      ghost var rest := TsvText(laws[i + 1..]);
      assert TsvText(laws[i..]) == TsvRow(laws[i]) + rest;
      f.Write(TsvRow(laws[i]));
      assert f.contents + rest == before + (TsvRow(laws[i]) + rest);
      i := i + 1;
    }
    assert laws[i..] == [];
  }

  /** Python's `str.split(sep)` for a one-character separator. */
  function SplitOn(s: string, sep: char): (parts: seq<string>)
    ensures |parts| >= 1
  {
    if s == [] then [""]
    else
      var rest := SplitOn(s[1..], sep);
      if s[0] == sep then [""] + rest else [[s[0]] + rest[0]] + rest[1..]
  }

  lemma {:induction false} SplitOnClean(a: string, sep: char)
    requires sep !in a
    ensures SplitOn(a, sep) == [a]
  {
    if a != [] {
      SplitOnClean(a[1..], sep);
      assert [a[0]] + a[1..] == a;
    }
  }

  /** A separator after a clean piece cuts exactly there. */
  lemma {:induction false} SplitOnJoin(a: string, sep: char, b: string)
    requires sep !in a
    ensures SplitOn(a + [sep] + b, sep) == [a] + SplitOn(b, sep)
  {
    if a == [] {
      assert a + [sep] + b == [sep] + b;
      assert ([sep] + b)[1..] == b;
    } else {
      var s := a + [sep] + b;
      assert s[0] == a[0] && s[1..] == a[1..] + [sep] + b;
      SplitOnJoin(a[1..], sep, b);
      assert [a[0]] + a[1..] == a;
    }
  }

  /** A row without its line break. */
  function Line(law: Law): string {
    law.LawCategory + "\t" + law.LawArticleChapter + "\t" + law.LawArticleNo + "\t" + law.LawArticleContent
  }

  /** The four fields of a row. */
  function RowFields(law: Law): seq<string> {
    [law.LawCategory, law.LawArticleChapter, law.LawArticleNo, law.LawArticleContent]
  }

  /** None of the four written fields holds a tab or a line break. */
  predicate CleanFields(law: Law) {
    forall f | f in RowFields(law) :: '\t' !in f && '\n' !in f
  }

  /** Reads the text back: split into lines, drop the empty piece after the
      final line break, split each line at tabs. */
  function ParseTsv(text: string): seq<seq<string>> {
    var lines := SplitOn(text, '\n');
    var rows := lines[..|lines| - 1];
    seq(|rows|, i requires 0 <= i < |rows| => SplitOn(rows[i], '\t'))
  }

  /** Four tab-free pieces joined by tabs split back into those pieces. */
  lemma SplitFour(a: string, b: string, c: string, d: string)
    requires '\t' !in a && '\t' !in b && '\t' !in c && '\t' !in d
    ensures SplitOn(a + "\t" + b + "\t" + c + "\t" + d, '\t') == [a, b, c, d]
  {
    SplitOnClean(d, '\t');
    SplitOnJoin(c, '\t', d);
    var t3 := c + ['\t'] + d;
    SplitOnJoin(b, '\t', t3);
    var t2 := b + ['\t'] + t3;
    SplitOnJoin(a, '\t', t2);
    assert a + "\t" + b + "\t" + c + "\t" + d == a + ['\t'] + t2;
  }

  lemma LineFields(law: Law)
    requires CleanFields(law)
    ensures SplitOn(Line(law), '\t') == RowFields(law)
    ensures '\n' !in Line(law)
  {
    var fs := RowFields(law);
    assert fs[0] in fs && fs[1] in fs && fs[2] in fs && fs[3] in fs;
    SplitFour(law.LawCategory, law.LawArticleChapter, law.LawArticleNo, law.LawArticleContent);
  }

  lemma {:induction false} TsvLines(laws: seq<Law>)
    requires forall i | 0 <= i < |laws| :: CleanFields(laws[i])
    ensures SplitOn(TsvText(laws), '\n') == seq(|laws|, i requires 0 <= i < |laws| => Line(laws[i])) + [""]
  {
    if laws != [] {
      TsvLines(laws[1..]);
      LineFields(laws[0]);
      assert TsvRow(laws[0]) + TsvText(laws[1..]) == Line(laws[0]) + ['\n'] + TsvText(laws[1..]);
      SplitOnJoin(Line(laws[0]), '\n', TsvText(laws[1..]));
    }
  }

  /** With fields free of tabs and line breaks, the file reads back as one row
      per article, in order, holding its category, chapter, number and
      content. */
  lemma TsvRoundTrip(laws: seq<Law>)
    requires forall i | 0 <= i < |laws| :: CleanFields(laws[i])
    ensures ParseTsv(TsvText(laws)) == seq(|laws|, i requires 0 <= i < |laws| => RowFields(laws[i]))
  {
    TsvLines(laws);
    forall i | 0 <= i < |laws|
      ensures SplitOn(Line(laws[i]), '\t') == RowFields(laws[i])
    {
      LineFields(laws[i]);
    }
  }

  // ---------------------------------------------------------------------------
  // transform_law / transform_order

  /** What `transform_law` and `transform_order` write for one data set: the
      JSON file and the text rows of the transformed collection. Both
      functions do the same with different paths. */
  function TransformFiles(data: seq<LawTransform.RawLaw>): (r: Result<(CollectionFile, string), LawTransform.TransformError>)
    ensures r.Ok? <==> LawTransform.Transform(data, []).Ok?
    ensures r.Ok? ==> var c := LawTransform.Transform(data, []).value;
      && |r.value.0.data| == |c.data|
      && FromJsonFile(r.value.0) == Some(c)
      && r.value.1 == TsvText(c.data)
  {
    var collection :- LawTransform.Transform(data, []);
    Ok((ToJsonFile(collection), TsvText(collection.data)))
  }

  // ---------------------------------------------------------------------------
  // __main__

  /** The three `store_true` flags. */
  datatype Flags = Flags(transformLawNOrder: bool, transformLawEmbeddings: bool, transformOrderEmbeddings: bool)

  /** Arguments of one `embeddings.law.transformer` call. */
  datatype EmbedParams = EmbedParams(prefix: string, partitions: int, chunkSize: int, chunkOverlap: int)

  datatype Step = TransformLaw | TransformOrder | EmbedLaw(params: EmbedParams) | EmbedOrder(params: EmbedParams)

  /** `transform_law_embeddings` passes no keywords: the defaults apply. */
  const LawParams: EmbedParams := EmbedParams(
    LawEmbeddings.DefaultPrefix, LawEmbeddings.DefaultPartitions,
    LawEmbeddings.DefaultChunkSize, LawEmbeddings.DefaultChunkOverlap)

  /** `transform_order_embeddings`'s keywords. */
  const OrderParams: EmbedParams := EmbedParams("order", 4, 800, 100)

  /** `x` occurs in `steps` before `y`. */
  predicate Before(steps: seq<Step>, x: Step, y: Step) {
    exists i, j | 0 <= i < j < |steps| :: steps[i] == x && steps[j] == y
  }

  /** Position of a step's `if` in `__main__`. */
  function Rank(s: Step): nat {
    match s
    case TransformLaw => 0
    case TransformOrder => 1
    case EmbedLaw(_) => 2
    case EmbedOrder(_) => 3
  }

  /** The `if` chain of `__main__`: each flag is tested on its own, in order,
      so the steps run in the order of their `if`s and none runs twice. */
  method RunCommand(flags: Flags) returns (steps: seq<Step>)
    ensures TransformLaw in steps <==> flags.transformLawNOrder
    ensures TransformOrder in steps <==> flags.transformLawNOrder
    ensures (exists p :: EmbedLaw(p) in steps) <==> flags.transformLawEmbeddings
    ensures (exists p :: EmbedOrder(p) in steps) <==> flags.transformOrderEmbeddings
    ensures forall s | s in steps :: s.EmbedLaw? ==> s.params == LawParams
    ensures forall s | s in steps :: s.EmbedOrder? ==> s.params == OrderParams
    ensures flags.transformLawNOrder ==> Before(steps, TransformLaw, TransformOrder)
    ensures flags.transformLawNOrder && flags.transformLawEmbeddings ==> Before(steps, TransformOrder, EmbedLaw(LawParams))
    ensures flags.transformLawEmbeddings && flags.transformOrderEmbeddings ==> Before(steps, EmbedLaw(LawParams), EmbedOrder(OrderParams))
    ensures flags.transformLawNOrder && flags.transformOrderEmbeddings ==> Before(steps, TransformOrder, EmbedOrder(OrderParams))
    ensures forall i, j | 0 <= i < j < |steps| :: Rank(steps[i]) < Rank(steps[j])
    ensures |steps| == (if flags.transformLawNOrder then 2 else 0)
                     + (if flags.transformLawEmbeddings then 1 else 0)
                     + (if flags.transformOrderEmbeddings then 1 else 0)
  {
    steps := [];
    if flags.transformLawNOrder {
      steps := steps + [TransformLaw];
      steps := steps + [TransformOrder];
    }
    var afterTransforms := |steps|;
    if flags.transformLawEmbeddings {
      steps := steps + [EmbedLaw(LawParams)];
    }
    if flags.transformOrderEmbeddings {
      steps := steps + [EmbedOrder(OrderParams)];
    }
    if flags.transformLawNOrder {
      assert steps[0] == TransformLaw && steps[1] == TransformOrder;
      if flags.transformLawEmbeddings {
        assert steps[2] == EmbedLaw(LawParams);
      }
    }
    if flags.transformLawEmbeddings && flags.transformOrderEmbeddings {
      assert steps[afterTransforms] == EmbedLaw(LawParams);
      assert steps[afterTransforms + 1] == EmbedOrder(OrderParams);
    }
    if flags.transformLawNOrder && flags.transformOrderEmbeddings {
      assert steps[|steps| - 1] == EmbedOrder(OrderParams);
    }
  }
}
