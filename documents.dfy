// The LangChain document objects that app/index/embeddings.py and
// app/embeddings/law.py work on, and the preprocessing both files share:
// full-width space replacement and the metadata mapping applied to every
// loaded JSON record.
module Documents {
  import opened Common

  /** A metadata value: Python `None` or a string. */
  datatype MetaValue = Null | Text(s: string)

  /** A loaded or split document. `_place_cjk_space` and `_splitter` assign
      `page_content` in place, so a document is an object. */
  class Document {
    var pageContent: string
    var metadata: map<string, MetaValue>

    constructor (content: string, meta: map<string, MetaValue>)
      ensures pageContent == content && metadata == meta
    {
      pageContent := content;
      metadata := meta;
    }
  }

  /** The value of a document at one moment. */
  datatype Doc = Doc(content: string, metadata: map<string, MetaValue>)

  function Snapshot(docs: seq<Document>): (r: seq<Doc>)
    reads set d | d in docs
    ensures |r| == |docs|
    ensures forall i | 0 <= i < |docs| :: r[i] == Doc(docs[i].pageContent, docs[i].metadata)
  {
    seq(|docs|, i reads docs requires 0 <= i < |docs| => Doc(docs[i].pageContent, docs[i].metadata))
  }

  // ---------------------------------------------------------------------------
  // Full-width space

  /** `str.replace(c, repl)` for one character. */
  function ReplaceChar(s: string, c: char, repl: char): string {
    if s == [] then []
    else [if s[0] == c then repl else s[0]] + ReplaceChar(s[1..], c, repl)
  }

  lemma {:induction false} ReplaceCharAt(s: string, c: char, repl: char)
    ensures |ReplaceChar(s, c, repl)| == |s|
    ensures forall i | 0 <= i < |s| :: ReplaceChar(s, c, repl)[i] == if s[i] == c then repl else s[i]
  {
    if s != [] {
      ReplaceCharAt(s[1..], c, repl);
      var r := ReplaceChar(s, c, repl);
      forall i | 0 < i < |s|
        ensures r[i] == if s[i] == c then repl else s[i]
      {
        assert r[i] == ReplaceChar(s[1..], c, repl)[i - 1];
      }
    }
  }

  /** `page_content.replace('　', ' ').replace('\u3000', ' ')`: both literals
      are U+3000, so the second replacement finds nothing left. The result has
      the same length, no U+3000, and every other character where it was. */
  function ReplaceCjk(s: string): (r: string)
    ensures |r| == |s|
    ensures forall i | 0 <= i < |s| :: r[i] == if s[i] == IdeographicSpace then ' ' else s[i]
    ensures forall i | 0 <= i < |r| :: r[i] != IdeographicSpace
  {
    var once := ReplaceChar(s, IdeographicSpace, ' ');
    ReplaceCharAt(s, IdeographicSpace, ' ');
    ReplaceCharAt(once, IdeographicSpace, ' ');
    ReplaceChar(once, IdeographicSpace, ' ')
  }

  /** Replacing twice is replacing once. */
  lemma ReplaceCjkIdempotent(s: string)
    ensures ReplaceCjk(ReplaceCjk(s)) == ReplaceCjk(s)
  {
    var r := ReplaceCjk(s);
    assert forall i | 0 <= i < |r| :: ReplaceCjk(r)[i] == r[i];
  }

  /** A text without U+3000 is left as it is. */
  lemma ReplaceCjkKeepsPlainText(s: string)
    requires forall i | 0 <= i < |s| :: s[i] != IdeographicSpace
    ensures ReplaceCjk(s) == s
  {
    assert forall i | 0 <= i < |s| :: ReplaceCjk(s)[i] == s[i];
  }

  // ---------------------------------------------------------------------------
  // Metadata mapping

  /** `record.get(key)`: the value, or `None` when the key is absent. */
  function Get(record: map<string, string>, key: string): (v: MetaValue)
    ensures v.Text? <==> key in record
    ensures v.Text? ==> v.s == record[key]
  {
    if key in record then Text(record[key]) else Null
  }

  /** The metadata keys always assigned from the record. */
  const FilledKeys: set<string> := {"law_level", "law_name", "law_category", "law_article_chapter", "law_article_no"}

  /** The record has a truthy `LawURL`. */
  predicate HasUrl(record: map<string, string>) {
    "LawURL" in record && Truthy(record["LawURL"])
  }

  /** The metadata dict after `metadata_func(record, metadata)`. */
  function ExtractMetadata(record: map<string, string>, before: map<string, MetaValue>): map<string, MetaValue> {
    var filled := before[
      "law_level" := Get(record, "LawLevel")][
      "law_name" := Get(record, "LawName")][
      "law_category" := Get(record, "LawCategory")][
      "law_article_chapter" := Get(record, "LawArticleChapter")][
      "law_article_no" := Get(record, "LawArticleNo")];
    if HasUrl(record) then filled["source" := Text(record["LawURL"])] else filled
  }

  /** The five law keys take the record's values, `None` when absent. */
  lemma ExtractMetadataFills(record: map<string, string>, before: map<string, MetaValue>)
    ensures var after := ExtractMetadata(record, before);
      && FilledKeys <= after.Keys
      && after["law_level"] == Get(record, "LawLevel")
      && after["law_name"] == Get(record, "LawName")
      && after["law_category"] == Get(record, "LawCategory")
      && after["law_article_chapter"] == Get(record, "LawArticleChapter")
      && after["law_article_no"] == Get(record, "LawArticleNo")
  {
  }

  /** `source` becomes the URL exactly when the record has a non-empty
      `LawURL`, and is otherwise left as it was (present or not); every key
      outside the five law keys and `source` is untouched; no key is removed
      and no other key is added. */
  lemma ExtractMetadataFrame(record: map<string, string>, before: map<string, MetaValue>)
    ensures var after := ExtractMetadata(record, before);
      && (HasUrl(record) ==> "source" in after && after["source"] == Text(record["LawURL"]))
      && (!HasUrl(record) ==> ("source" in after <==> "source" in before))
      && (!HasUrl(record) && "source" in before ==> after["source"] == before["source"])
      && (forall k | k in before && k !in FilledKeys && k != "source" :: k in after && after[k] == before[k])
      && after.Keys == before.Keys + FilledKeys + (if HasUrl(record) then {"source"} else {})
  {
  }

  /** The dict `metadata_func` receives and mutates. */
  class MetadataDict {
    var entries: map<string, MetaValue>

    constructor (initial: map<string, MetaValue>)
      ensures entries == initial
    {
      entries := initial;
    }

    /** `metadata_func(record, metadata)`: five assignments and a conditional
        one, in place; the caller gets the same dict back. */
    method MetadataFunc(record: map<string, string>) returns (same: MetadataDict)
      modifies this
      ensures same == this
      ensures entries == ExtractMetadata(record, old(entries))
    {
      entries := entries["law_level" := Get(record, "LawLevel")];
      entries := entries["law_name" := Get(record, "LawName")];
      entries := entries["law_category" := Get(record, "LawCategory")];
      entries := entries["law_article_chapter" := Get(record, "LawArticleChapter")];
      entries := entries["law_article_no" := Get(record, "LawArticleNo")];
      if HasUrl(record) {
        entries := entries["source" := Text(record["LawURL"])];
      }
      same := this;
    }
  }
}
