// Properties of the law-record transformer of app/assets/transform.py:
// filtering, chapter stickiness, append-only output, normalised fields, the
// error cases, and agreement with a direct reference definition on
// well-formed input.
module TransformProps {
  import opened Common
  import opened LawDto
  import opened LawTransform

  // ---------------------------------------------------------------------------
  // Composition of the outer loop

  function Then(r: Result<Scan, TransformError>, allowed: seq<string>, rest: seq<RawLaw>): Result<Scan, TransformError> {
    match r
    case Ok(st) => RunLaws(allowed, st, rest)
    case Err(e) => Err(e)
  }

  lemma {:induction false} RunLawsAppend(allowed: seq<string>, st: Scan, a: seq<RawLaw>, b: seq<RawLaw>)
    ensures RunLaws(allowed, st, a + b) == Then(RunLaws(allowed, st, a), allowed, b)
    decreases |a|
  {
    if a == [] {
      assert a + b == b;
    } else {
      assert (a + b)[0] == a[0] && (a + b)[1..] == a[1..] + b;
      var step := LawStep(allowed, st, a[0]);
      if step.Ok? {
        RunLawsAppend(allowed, step.value, a[1..], b);
      }
    }
  }

  /** A law the source skips (abandoned, or outside the allowed categories)
      changes nothing: removing it from the input gives the same result. */
  lemma SkippedLawIsInvisible(data: seq<RawLaw>, allowed: seq<string>, i: int)
    requires 0 <= i < |data|
    requires ReadHeader(data[i]).Ok? && !Keeps(allowed, ReadHeader(data[i]).value)
    ensures Transform(data, allowed) == Transform(data[..i] + data[i + 1..], allowed)
  {
    var rest := data[i + 1..];
    assert data == data[..i] + ([data[i]] + rest);
    RunLawsAppend(allowed, Start, data[..i], [data[i]] + rest);
    RunLawsAppend(allowed, Start, data[..i], rest);
    var pre := RunLaws(allowed, Start, data[..i]);
    if pre.Ok? {
      assert ([data[i]] + rest)[0] == data[i] && ([data[i]] + rest)[1..] == rest;
      assert LawStep(allowed, pre.value, data[i]) == Ok(pre.value);
    }
  }

  /** A law with a non-empty abandonment note contributes no records and does
      not influence any other law's records, whatever the category list. */
  lemma AbandonedLawContributesNothing(data: seq<RawLaw>, allowed: seq<string>, i: int)
    requires 0 <= i < |data|
    requires ReadHeader(data[i]).Ok? && ReadHeader(data[i]).value.abandonNote != ""
    ensures Transform(data, allowed) == Transform(data[..i] + data[i + 1..], allowed)
  {
    SkippedLawIsInvisible(data, allowed, i);
  }

  /** With a non-empty category list, a law none of whose entries is a
      substring of its category contributes nothing. */
  lemma DisallowedCategoryContributesNothing(data: seq<RawLaw>, allowed: seq<string>, i: int)
    requires 0 <= i < |data| && |allowed| > 0
    requires ReadHeader(data[i]).Ok?
    requires forall k | 0 <= k < |allowed| :: !IsSubstring(allowed[k], ReadHeader(data[i]).value.category)
    ensures Transform(data, allowed) == Transform(data[..i] + data[i + 1..], allowed)
  {
    SkippedLawIsInvisible(data, allowed, i);
  }

  /** The worked category example: an allowed entry that occurs inside the
      category keeps the law; an unrelated category drops it. */
  lemma CategoryFilterExample()
    ensures Keeps(["食品藥物管理"], Header("法律", "n", "u", "衛生福利部＞食品藥物管理目", ""))
    ensures !Keeps(["食品藥物管理"], Header("法律", "n", "u", "財政部＞賦稅", ""))
    ensures Keeps([], Header("法律", "n", "u", "財政部＞賦稅", ""))
  {
    var needle := "食品藥物管理";
    var cat := "衛生福利部＞食品藥物管理目";
    assert cat[6..12] == needle;
    assert OccursAt(needle, cat, 6);
    assert IsSubstring([needle][0], cat);
    var other := "財政部＞賦稅";
    assert other[0] != needle[0];
    assert !OccursAt(needle, other, 0);
    assert !IsSubstring([needle][0], other);
  }

  /** For a kept law the chapter starts from "" whatever the previous law left
      in `article_content_chapter`. */
  lemma ChapterRestartsPerLaw(allowed: seq<string>, st: Scan, law: RawLaw, leftover: string)
    requires ReadHeader(law).Ok? && Keeps(allowed, ReadHeader(law).value)
    ensures LawStep(allowed, st, law) == LawStep(allowed, st.(chapter := leftover), law)
  {
  }

  // ---------------------------------------------------------------------------
  // One entry at a time

  /** A 'C' entry emits nothing and becomes the current chapter. */
  lemma ChapterEntryEmitsNothing(h: Header, st: Scan, a: RawArticle)
    requires "ArticleType" in a.fields && a.fields["ArticleType"] == "C"
    requires "ArticleContent" in a.fields
    ensures ArticleStep(h, st, a) == Ok(st.(chapter := a.fields["ArticleContent"]))
  {
  }

  /** An 'A' entry emits exactly one row: header fields copied, chapter, number
      and content passed through `remove_space`. */
  lemma ArticleEntryEmitsOneRow(h: Header, st: Scan, a: RawArticle)
    requires "ArticleType" in a.fields && a.fields["ArticleType"] == "A"
    requires "ArticleNo" in a.fields && "ArticleContent" in a.fields
    ensures ArticleStep(h, st, a).Ok?
    ensures ArticleStep(h, st, a).value.rows == st.rows + [Law(h.level, h.name, h.url, h.category,
      RemoveSpace(st.chapter), RemoveSpace(a.fields["ArticleNo"]), RemoveSpace(a.fields["ArticleContent"]))]
  {
  }

  /** An entry of any other type still emits a row, made from the number and
      content of the last 'A' entry seen (in this law or an earlier one); with
      none seen yet the run fails. */
  lemma OtherEntryReusesLastArticle(h: Header, st: Scan, a: RawArticle)
    requires "ArticleType" in a.fields && a.fields["ArticleType"] != "C" && a.fields["ArticleType"] != "A"
    ensures st.last.None? ==> ArticleStep(h, st, a) == Err(UnboundLocalError("article_no"))
    ensures st.last.Some? ==> (ArticleStep(h, st, a).Ok? &&
      ArticleStep(h, st, a).value.rows == st.rows + [Law(h.level, h.name, h.url, h.category,
        RemoveSpace(st.chapter), RemoveSpace(st.last.value.no), RemoveSpace(st.last.value.content))])
  {
  }

  /** The leftover article really does cross law boundaries: a second law
      whose only entry has an unknown type repeats the first law's article
      under the second law's header. */
  lemma LeftoverArticleCrossesLaws(h1: Header, h2: Header, no: string, content: string, otherType: string)
    requires !Truthy(h1.abandonNote) && !Truthy(h2.abandonNote)
    requires Normalised(no) && Normalised(content)
    requires otherType != "C" && otherType != "A"
    ensures
      var first := RawLaw(map["LawLevel" := h1.level, "LawName" := h1.name, "LawURL" := h1.url,
                              "LawCategory" := h1.category, "LawAbandonNote" := h1.abandonNote],
                          Some([RawArticle(map["ArticleType" := "A", "ArticleNo" := no, "ArticleContent" := content])]));
      var second := RawLaw(map["LawLevel" := h2.level, "LawName" := h2.name, "LawURL" := h2.url,
                               "LawCategory" := h2.category, "LawAbandonNote" := h2.abandonNote],
                           Some([RawArticle(map["ArticleType" := otherType])]));
      Transform([first, second], []) == Ok(LawCollection([
        Law(h1.level, h1.name, h1.url, h1.category, "", no, content),
        Law(h2.level, h2.name, h2.url, h2.category, "", no, content)]))
  {
    var a1 := RawArticle(map["ArticleType" := "A", "ArticleNo" := no, "ArticleContent" := content]);
    var a2 := RawArticle(map["ArticleType" := otherType]);
    var first := RawLaw(map["LawLevel" := h1.level, "LawName" := h1.name, "LawURL" := h1.url,
                            "LawCategory" := h1.category, "LawAbandonNote" := h1.abandonNote], Some([a1]));
    var second := RawLaw(map["LawLevel" := h2.level, "LawName" := h2.name, "LawURL" := h2.url,
                             "LawCategory" := h2.category, "LawAbandonNote" := h2.abandonNote], Some([a2]));
    assert ReadHeader(first) == Ok(h1);
    assert ReadHeader(second) == Ok(h2);
    RemoveSpaceKeepsCleanText("");
    RemoveSpaceKeepsCleanText(no);
    RemoveSpaceKeepsCleanText(content);
    var row1 := Law(h1.level, h1.name, h1.url, h1.category, "", no, content);
    var row2 := Law(h2.level, h2.name, h2.url, h2.category, "", no, content);
    var s1 := Scan([row1], "", Some(Article(no, content)));
    assert Lookup(a1.fields, "ArticleType") == Ok("A");
    assert CurrentArticle(a1, "A", None) == Ok(Article(no, content));
    assert MakeRow(h1, "", no, content) == row1;
    assert Start == Scan([], "", None);
    assert RemoveSpace(Start.chapter) == "";
    assert RemoveSpace(no) == no;
    assert Start.rows + [row1] == [row1];
    assert ArticleStep(h1, Start, a1) == Ok(s1);
    assert RunArticles(h1, s1, []) == Ok(s1);
    assert RunArticles(h1, Start, [a1]) == Ok(s1);
    assert LawStep([], Start, first) == Ok(s1);
    var s2 := Scan([row1, row2], "", Some(Article(no, content)));
    assert Lookup(a2.fields, "ArticleType") == Ok(otherType);
    assert CurrentArticle(a2, otherType, s1.last) == Ok(Article(no, content));
    assert MakeRow(h2, "", no, content) == row2;
    assert s1.(chapter := "") == s1;
    assert s1.rows + [row2] == [row1, row2];
    assert ArticleStep(h2, s1.(chapter := ""), a2) == Ok(s2);
    assert RunArticles(h2, s2, []) == Ok(s2);
    assert RunArticles(h2, s1.(chapter := ""), [a2]) == Ok(s2);
    assert LawStep([], s1, second) == Ok(s2);
    assert RunLaws([], s2, []) == Ok(s2);
    assert RunLaws([], s1, [second]) == Ok(s2);
    assert [first, second][1..] == [second];
    assert RunLaws([], Start, [first, second]) == Ok(s2);
  }

  // ---------------------------------------------------------------------------
  // Output only grows, and every emitted field is normalised

  /** A string in which `remove_space` would find nothing to remove. */
  predicate Normalised(s: string) {
    forall k | 0 <= k < |s| :: s[k] !in Noise
  }

  predicate RowNormalised(row: Law) {
    Normalised(row.LawArticleChapter) && Normalised(row.LawArticleNo) && Normalised(row.LawArticleContent)
  }

  predicate AllRowsNormalised(rows: seq<Law>) {
    forall k | 0 <= k < |rows| :: RowNormalised(rows[k])
  }

  lemma {:induction false} KeepOutsideAvoids(s: string, drop: set<char>)
    ensures forall k | 0 <= k < |KeepOutside(s, drop)| :: KeepOutside(s, drop)[k] !in drop
  {
    if s != [] {
      KeepOutsideAvoids(s[1..], drop);
    }
  }

  lemma RemoveSpaceNormalises(text: string)
    ensures Normalised(RemoveSpace(text))
  {
    RemoveSpaceIsFilter(text);
    KeepOutsideAvoids(text, Noise);
  }

  lemma StepKeepsRows(h: Header, st: Scan, a: RawArticle)
    requires ArticleStep(h, st, a).Ok?
    ensures st.rows <= ArticleStep(h, st, a).value.rows
    ensures AllRowsNormalised(st.rows) ==> AllRowsNormalised(ArticleStep(h, st, a).value.rows)
  {
    var next := ArticleStep(h, st, a).value;
    if next.rows != st.rows {
      var current := CurrentArticle(a, a.fields["ArticleType"], st.last).value;
      RemoveSpaceNormalises(st.chapter);
      RemoveSpaceNormalises(current.no);
      RemoveSpaceNormalises(current.content);
    }
  }

  lemma {:induction false} ArticlesKeepRows(h: Header, st: Scan, arts: seq<RawArticle>)
    requires RunArticles(h, st, arts).Ok?
    ensures st.rows <= RunArticles(h, st, arts).value.rows
    ensures AllRowsNormalised(st.rows) ==> AllRowsNormalised(RunArticles(h, st, arts).value.rows)
    decreases |arts|
  {
    if arts != [] {
      StepKeepsRows(h, st, arts[0]);
      ArticlesKeepRows(h, ArticleStep(h, st, arts[0]).value, arts[1..]);
    }
  }

  lemma {:induction false} LawsKeepRows(allowed: seq<string>, st: Scan, data: seq<RawLaw>)
    requires RunLaws(allowed, st, data).Ok?
    ensures st.rows <= RunLaws(allowed, st, data).value.rows
    ensures AllRowsNormalised(st.rows) ==> AllRowsNormalised(RunLaws(allowed, st, data).value.rows)
    decreases |data|
  {
    if data != [] {
      var next := LawStep(allowed, st, data[0]).value;
      var h := ReadHeader(data[0]).value;
      if Keeps(allowed, h) {
        ArticlesKeepRows(h, st.(chapter := ""), ReadArticles(data[0]).value);
      }
      LawsKeepRows(allowed, next, data[1..]);
    }
  }

  /** Records are only ever appended: the rows produced for a prefix of the
      input are a prefix of the rows produced for the whole input. */
  lemma OutputExtendsPrefixOutput(data: seq<RawLaw>, allowed: seq<string>, i: int)
    requires 0 <= i <= |data|
    requires Transform(data, allowed).Ok?
    ensures Transform(data[..i], allowed).Ok?
    ensures Transform(data[..i], allowed).value.data <= Transform(data, allowed).value.data
  {
    assert data == data[..i] + data[i..];
    RunLawsAppend(allowed, Start, data[..i], data[i..]);
    var pre := RunLaws(allowed, Start, data[..i]);
    assert pre.Ok?;
    LawsKeepRows(allowed, pre.value, data[i..]);
  }

  /** Every emitted chapter, article number and content is free of spaces and
      box-drawing glyphs. */
  lemma TransformRowsNormalised(data: seq<RawLaw>, allowed: seq<string>)
    requires Transform(data, allowed).Ok?
    ensures AllRowsNormalised(Transform(data, allowed).value.data)
  {
    LawsKeepRows(allowed, Start, data);
  }

  // ---------------------------------------------------------------------------
  // Well-formed input and a direct reference definition

  /** An entry of type 'C' or 'A' carrying the keys its type reads. */
  predicate WellFormedEntry(a: RawArticle) {
    && "ArticleType" in a.fields
    && "ArticleContent" in a.fields
    && (a.fields["ArticleType"] == "C" || (a.fields["ArticleType"] == "A" && "ArticleNo" in a.fields))
  }

  predicate WellFormedEntries(arts: seq<RawArticle>) {
    forall k | 0 <= k < |arts| :: WellFormedEntry(arts[k])
  }

  /** A law with its five header keys and, when kept, well-formed entries. */
  predicate WellFormedLaw(allowed: seq<string>, law: RawLaw) {
    && ReadHeader(law).Ok?
    && (Keeps(allowed, ReadHeader(law).value) ==> law.articles.Some? && WellFormedEntries(law.articles.value))
  }

  predicate WellFormed(allowed: seq<string>, data: seq<RawLaw>) {
    forall k | 0 <= k < |data| :: WellFormedLaw(allowed, data[k])
  }

  /** Reference rows of one law: one per 'A' entry, in order, each paired with
      the content of the latest 'C' entry before it (`chapter` before any). */
  function ArticleRows(h: Header, chapter: string, arts: seq<RawArticle>): seq<Law>
    requires WellFormedEntries(arts)
    decreases |arts|
  {
    if arts == [] then []
    else
      var a := arts[0].fields;
      if a["ArticleType"] == "C" then ArticleRows(h, a["ArticleContent"], arts[1..])
      else [MakeRow(h, RemoveSpace(chapter), RemoveSpace(a["ArticleNo"]), RemoveSpace(a["ArticleContent"]))]
           + ArticleRows(h, chapter, arts[1..])
  }

  /** Reference output: the laws kept, in order, each contributing its rows. */
  function ReferenceRows(allowed: seq<string>, data: seq<RawLaw>): seq<Law>
    requires WellFormed(allowed, data)
    decreases |data|
  {
    if data == [] then []
    else
      var h := ReadHeader(data[0]).value;
      (if Keeps(allowed, h) then ArticleRows(h, "", data[0].articles.value) else [])
      + ReferenceRows(allowed, data[1..])
  }

  lemma {:induction false} ArticleRowsNormalisedChapter(h: Header, chapter: string, arts: seq<RawArticle>)
    requires WellFormedEntries(arts)
    ensures ArticleRows(h, RemoveSpace(chapter), arts) == ArticleRows(h, chapter, arts)
    decreases |arts|
  {
    if arts != [] && arts[0].fields["ArticleType"] != "C" {
      RemoveSpaceIdempotent(chapter);
      ArticleRowsNormalisedChapter(h, chapter, arts[1..]);
    }
  }

  lemma {:induction false} ArticlesMatchReference(h: Header, st: Scan, arts: seq<RawArticle>)
    requires WellFormedEntries(arts)
    ensures RunArticles(h, st, arts).Ok?
    ensures RunArticles(h, st, arts).value.rows == st.rows + ArticleRows(h, st.chapter, arts)
    decreases |arts|
  {
    if arts == [] {
    } else {
      var next := ArticleStep(h, st, arts[0]).value;
      ArticlesMatchReference(h, next, arts[1..]);
      if arts[0].fields["ArticleType"] != "C" {
        ArticleRowsNormalisedChapter(h, st.chapter, arts[1..]);
      }
    }
  }

  lemma {:induction false} LawsMatchReference(allowed: seq<string>, st: Scan, data: seq<RawLaw>)
    requires WellFormed(allowed, data)
    ensures RunLaws(allowed, st, data).Ok?
    ensures RunLaws(allowed, st, data).value.rows == st.rows + ReferenceRows(allowed, data)
    decreases |data|
  {
    if data != [] {
      var law := data[0];
      assert WellFormedLaw(allowed, law);
      var h := ReadHeader(law).value;
      var next: Scan;
      var own: seq<Law>;
      if Keeps(allowed, h) {
        var arts := law.articles.value;
        ArticlesMatchReference(h, st.(chapter := ""), arts);
        next := RunArticles(h, st.(chapter := ""), arts).value;
        own := ArticleRows(h, "", arts);
        assert LawStep(allowed, st, law) == Ok(next);
      } else {
        next := st;
        own := [];
        assert LawStep(allowed, st, law) == Ok(st);
      }
      assert next.rows == st.rows + own;
      assert WellFormed(allowed, data[1..]);
      LawsMatchReference(allowed, next, data[1..]);
      assert ReferenceRows(allowed, data) == own + ReferenceRows(allowed, data[1..]);
    }
  }

  /** On well-formed input the transformer succeeds and returns exactly the
      reference rows: kept laws in order, one row per 'A' entry. */
  lemma TransformMatchesReference(data: seq<RawLaw>, allowed: seq<string>)
    requires WellFormed(allowed, data)
    ensures Transform(data, allowed) == Ok(LawCollection(ReferenceRows(allowed, data)))
  {
    LawsMatchReference(allowed, Start, data);
    assert Start.rows + ReferenceRows(allowed, data) == ReferenceRows(allowed, data);
  }

  function CountArticleEntries(arts: seq<RawArticle>): nat
    requires WellFormedEntries(arts)
  {
    if arts == [] then 0
    else (if arts[0].fields["ArticleType"] == "A" then 1 else 0) + CountArticleEntries(arts[1..])
  }

  /** Exactly one row per 'A' entry. */
  lemma {:induction false} OneRowPerArticle(h: Header, chapter: string, arts: seq<RawArticle>)
    requires WellFormedEntries(arts)
    ensures |ArticleRows(h, chapter, arts)| == CountArticleEntries(arts)
    decreases |arts|
  {
    if arts != [] {
      var a := arts[0].fields;
      OneRowPerArticle(h, if a["ArticleType"] == "C" then a["ArticleContent"] else chapter, arts[1..]);
    }
  }

  /** Between two 'C' entries the chapter is sticky: every 'A' entry takes the
      chapter in force, and the header fields are copied unchanged. */
  lemma {:induction false} ChapterSticks(h: Header, chapter: string, arts: seq<RawArticle>)
    requires WellFormedEntries(arts)
    requires forall k | 0 <= k < |arts| :: arts[k].fields["ArticleType"] == "A"
    ensures |ArticleRows(h, chapter, arts)| == |arts|
    ensures forall k | 0 <= k < |arts| :: (ArticleRows(h, chapter, arts)[k] ==
      Law(h.level, h.name, h.url, h.category, RemoveSpace(chapter),
          RemoveSpace(arts[k].fields["ArticleNo"]), RemoveSpace(arts[k].fields["ArticleContent"])))
    decreases |arts|
  {
    if arts != [] {
      ChapterSticks(h, chapter, arts[1..]);
      var rows := ArticleRows(h, chapter, arts);
      forall k | 0 <= k < |arts|
        ensures rows[k] == Law(h.level, h.name, h.url, h.category, RemoveSpace(chapter),
          RemoveSpace(arts[k].fields["ArticleNo"]), RemoveSpace(arts[k].fields["ArticleContent"]))
      {
        if k > 0 {
          assert rows[k] == ArticleRows(h, chapter, arts[1..])[k - 1];
          assert arts[1..][k - 1] == arts[k];
        }
      }
    }
  }

  /** The worked chapter example [C chapter, A no1 text1, A no2 text2], for
      any texts free of spaces and box-drawing glyphs (such as 第一章, 101,
      text1): both rows carry the chapter. */
  lemma ChapterStickinessExample(level: string, name: string, url: string, category: string,
                                 chapter: string, no1: string, text1: string, no2: string, text2: string)
    requires Normalised(chapter) && Normalised(no1) && Normalised(text1) && Normalised(no2) && Normalised(text2)
    ensures
      var law := RawLaw(map["LawLevel" := level, "LawName" := name, "LawURL" := url, "LawCategory" := category,
                            "LawAbandonNote" := ""],
                        Some([RawArticle(map["ArticleType" := "C", "ArticleContent" := chapter]),
                              RawArticle(map["ArticleType" := "A", "ArticleNo" := no1, "ArticleContent" := text1]),
                              RawArticle(map["ArticleType" := "A", "ArticleNo" := no2, "ArticleContent" := text2])]));
      Transform([law], []) == Ok(LawCollection([
        Law(level, name, url, category, chapter, no1, text1),
        Law(level, name, url, category, chapter, no2, text2)]))
  {
    var c0 := RawArticle(map["ArticleType" := "C", "ArticleContent" := chapter]);
    var a1 := RawArticle(map["ArticleType" := "A", "ArticleNo" := no1, "ArticleContent" := text1]);
    var a2 := RawArticle(map["ArticleType" := "A", "ArticleNo" := no2, "ArticleContent" := text2]);
    var arts := [c0, a1, a2];
    var law := RawLaw(map["LawLevel" := level, "LawName" := name, "LawURL" := url, "LawCategory" := category,
                          "LawAbandonNote" := ""], Some(arts));
    var h := Header(level, name, url, category, "");
    assert ReadHeader(law) == Ok(h);
    assert WellFormedEntries(arts);
    assert WellFormed([], [law]);
    TransformMatchesReference([law], []);
    var rows := ExampleRows(h, c0, a1, a2, chapter, no1, text1, no2, text2);
    assert Keeps([], h);
    assert [law][1..] == [];
    assert ReferenceRows([], [law]) == rows + ReferenceRows([], []);
    assert ReferenceRows([], [law]) == rows;
  }

  /** The rows of the worked example's entries, chapter entry first. */
  lemma ExampleRows(h: Header, c0: RawArticle, a1: RawArticle, a2: RawArticle,
                    chapter: string, no1: string, text1: string, no2: string, text2: string)
    returns (rows: seq<Law>)
    requires Normalised(chapter) && Normalised(no1) && Normalised(text1) && Normalised(no2) && Normalised(text2)
    requires c0 == RawArticle(map["ArticleType" := "C", "ArticleContent" := chapter])
    requires a1 == RawArticle(map["ArticleType" := "A", "ArticleNo" := no1, "ArticleContent" := text1])
    requires a2 == RawArticle(map["ArticleType" := "A", "ArticleNo" := no2, "ArticleContent" := text2])
    ensures WellFormedEntries([c0, a1, a2])
    ensures rows == ArticleRows(h, "", [c0, a1, a2])
    ensures rows == [Law(h.level, h.name, h.url, h.category, chapter, no1, text1),
                     Law(h.level, h.name, h.url, h.category, chapter, no2, text2)]
  {
    var arts := [c0, a1, a2];
    assert WellFormedEntries(arts);
    var rest := arts[1..];
    assert rest == [a1, a2];
    rows := ArticleRows(h, chapter, rest);
    assert ArticleRows(h, "", arts) == rows;
    ExampleArticleRows(h, a1, a2, chapter, no1, text1, no2, text2);
  }

  /** The two article entries of the worked example under its chapter. */
  lemma ExampleArticleRows(h: Header, a1: RawArticle, a2: RawArticle,
                           chapter: string, no1: string, text1: string, no2: string, text2: string)
    requires Normalised(chapter) && Normalised(no1) && Normalised(text1) && Normalised(no2) && Normalised(text2)
    requires a1 == RawArticle(map["ArticleType" := "A", "ArticleNo" := no1, "ArticleContent" := text1])
    requires a2 == RawArticle(map["ArticleType" := "A", "ArticleNo" := no2, "ArticleContent" := text2])
    ensures WellFormedEntries([a1, a2])
    ensures ArticleRows(h, chapter, [a1, a2]) ==
      [Law(h.level, h.name, h.url, h.category, chapter, no1, text1),
       Law(h.level, h.name, h.url, h.category, chapter, no2, text2)]
  {
    RemoveSpaceKeepsCleanText(chapter);
    RemoveSpaceKeepsCleanText(no1);
    RemoveSpaceKeepsCleanText(no2);
    RemoveSpaceKeepsCleanText(text1);
    RemoveSpaceKeepsCleanText(text2);
    var rest := [a1, a2];
    assert WellFormedEntries(rest);
    ChapterSticks(h, chapter, rest);
  }

  // ---------------------------------------------------------------------------
  // Error cases: the whole call fails, no partial collection

  /** A law lacking one of the five header keys aborts the run once it is
      reached, even if it would have been skipped as abandoned. */
  lemma MissingHeaderKeyAborts(data: seq<RawLaw>, allowed: seq<string>, i: int)
    requires 0 <= i < |data|
    requires Transform(data[..i], allowed).Ok?
    requires ReadHeader(data[i]).Err?
    ensures Transform(data, allowed) == Err(ReadHeader(data[i]).error)
  {
    assert data == data[..i] + data[i..];
    RunLawsAppend(allowed, Start, data[..i], data[i..]);
    assert data[i..][0] == data[i];
  }

  /** An entry of unknown type met before any 'A' entry (only chapters before
      it, and no article left over from earlier laws) aborts the run. */
  lemma {:induction false} UnboundArticleAborts(h: Header, st: Scan, arts: seq<RawArticle>, p: int)
    requires st.last.None?
    requires 0 <= p < |arts|
    requires forall k | 0 <= k < p :: WellFormedEntry(arts[k]) && arts[k].fields["ArticleType"] == "C"
    requires "ArticleType" in arts[p].fields
    requires arts[p].fields["ArticleType"] != "C" && arts[p].fields["ArticleType"] != "A"
    ensures RunArticles(h, st, arts) == Err(UnboundLocalError("article_no"))
    decreases p
  {
    if p > 0 {
      UnboundArticleAborts(h, ArticleStep(h, st, arts[0]).value, arts[1..], p - 1);
    }
  }
  // ---------------------------------------------------------------------------
  // A missing key aborts the whole call

  /** The key whose lookup raises KeyError on this entry, if any: its type
      first, then the content of a 'C' entry, or the number and then the
      content of an 'A' entry. Other types read no further key. */
  function EntryMissingKey(a: RawArticle): (r: Option<string>)
    ensures WellFormedEntry(a) <==>
      && r.None?
      && "ArticleType" in a.fields
      && (a.fields["ArticleType"] == "C" || a.fields["ArticleType"] == "A")
    ensures r.Some? ==> r.value in {"ArticleType", "ArticleNo", "ArticleContent"} && r.value !in a.fields
  {
    if "ArticleType" !in a.fields then Some("ArticleType")
    else if a.fields["ArticleType"] == "C" then
      if "ArticleContent" !in a.fields then Some("ArticleContent") else None
    else if a.fields["ArticleType"] == "A" then
      if "ArticleNo" !in a.fields then Some("ArticleNo")
      else if "ArticleContent" !in a.fields then Some("ArticleContent")
      else None
    else None
  }

  /** Entries after well-formed ones that lack a key they read stop the inner
      loop with that key's KeyError. */
  lemma {:induction false} MissingEntryKeyStops(h: Header, st: Scan, arts: seq<RawArticle>, j: int)
    requires 0 <= j < |arts|
    requires WellFormedEntries(arts[..j])
    requires EntryMissingKey(arts[j]).Some?
    ensures RunArticles(h, st, arts) == Err(KeyError(EntryMissingKey(arts[j]).value))
    decreases j
  {
    if j > 0 {
      assert WellFormedEntry(arts[..j][0]);
      assert arts[1..][..j - 1] == arts[..j][1..];
      MissingEntryKeyStops(h, ArticleStep(h, st, arts[0]).value, arts[1..], j - 1);
    }
  }

  /** A kept law without `LawArticles`, after laws that raise nothing, makes the
      whole call raise KeyError('LawArticles'). */
  lemma MissingArticlesAborts(data: seq<RawLaw>, allowed: seq<string>, i: int)
    requires 0 <= i < |data|
    requires Transform(data[..i], allowed).Ok?
    requires ReadHeader(data[i]).Ok? && Keeps(allowed, ReadHeader(data[i]).value)
    requires data[i].articles.None?
    ensures Transform(data, allowed) == Err(KeyError("LawArticles"))
  {
    assert data == data[..i] + data[i..];
    RunLawsAppend(allowed, Start, data[..i], data[i..]);
    assert data[i..][0] == data[i];
  }

  /** In a kept law after laws that raise nothing, an entry after well-formed entries
      that lacks a key it reads makes the whole call raise that KeyError. */
  lemma MissingEntryKeyAborts(data: seq<RawLaw>, allowed: seq<string>, i: int, j: int)
    requires 0 <= i < |data|
    requires Transform(data[..i], allowed).Ok?
    requires ReadHeader(data[i]).Ok? && Keeps(allowed, ReadHeader(data[i]).value)
    requires data[i].articles.Some? && 0 <= j < |data[i].articles.value|
    requires WellFormedEntries(data[i].articles.value[..j])
    requires EntryMissingKey(data[i].articles.value[j]).Some?
    ensures Transform(data, allowed) == Err(KeyError(EntryMissingKey(data[i].articles.value[j]).value))
  {
    assert data == data[..i] + data[i..];
    RunLawsAppend(allowed, Start, data[..i], data[i..]);
    assert data[i..][0] == data[i];
    var st := RunLaws(allowed, Start, data[..i]).value;
    MissingEntryKeyStops(ReadHeader(data[i]).value, st.(chapter := ""), data[i].articles.value, j);
  }
}
