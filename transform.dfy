// app/assets/transform.py: turns raw law records (one JSON object per law,
// each holding a list of typed entries) into the flat `LawCollection`.
//
// The raw records are JSON objects, so they are modelled as maps from key to
// string: a missing key is exactly Python's `KeyError`, and the order of the
// lookups below is the order in which the source reads the keys.
module LawTransform {
  import opened Common
  import opened LawDto

  // ---------------------------------------------------------------------------
  // remove_space

  /** The characters `remove_space` deletes: ASCII space and the box-drawing
      glyphs U+251C, U+2500, U+253C, U+2524, U+2502. */
  const Noise: set<char> := {' ', '\U{251C}', '\U{2500}', '\U{253C}', '\U{2524}', '\U{2502}'}

  /** Python's `s.replace(c, '')` for a single character `c`. */
  function DeleteAll(s: string, c: char): string {
    if s == [] then [] else (if s[0] == c then [] else [s[0]]) + DeleteAll(s[1..], c)
  }

  /** `remove_space`, as the chain of six `replace` calls it is written as. */
  function RemoveSpace(text: string): string {
    DeleteAll(DeleteAll(DeleteAll(DeleteAll(DeleteAll(DeleteAll(
      text, ' '), '\U{251C}'), '\U{2500}'), '\U{253C}'), '\U{2524}'), '\U{2502}')
  }

  /** Reference definition: keep, in order, the characters outside `drop`. */
  function KeepOutside(s: string, drop: set<char>): string {
    if s == [] then [] else (if s[0] in drop then [] else [s[0]]) + KeepOutside(s[1..], drop)
  }

  lemma {:induction false} DeleteAfterKeep(s: string, drop: set<char>, c: char)
    ensures DeleteAll(KeepOutside(s, drop), c) == KeepOutside(s, drop + {c})
  {
    if s != [] {
      DeleteAfterKeep(s[1..], drop, c);
      var head := if s[0] in drop then [] else [s[0]];
      DeleteDistributes(head, KeepOutside(s[1..], drop), c);
    }
  }

  lemma {:induction false} DeleteDistributes(a: string, b: string, c: char)
    ensures DeleteAll(a + b, c) == DeleteAll(a, c) + DeleteAll(b, c)
  {
    if a != [] {
      assert (a + b)[1..] == a[1..] + b;
      DeleteDistributes(a[1..], b, c);
    } else {
      assert a + b == b;
    }
  }

  lemma KeepNothing(s: string)
    ensures KeepOutside(s, {}) == s
  {
  }

  /** The six chained replacements delete exactly the noise characters and
      keep every other character, in order. */
  lemma RemoveSpaceIsFilter(text: string)
    ensures RemoveSpace(text) == KeepOutside(text, Noise)
  {
    var d0: set<char> := {};
    KeepNothing(text);
    DeleteAfterKeep(text, d0, ' ');
    var d1 := d0 + {' '};
    DeleteAfterKeep(text, d1, '\U{251C}');
    var d2 := d1 + {'\U{251C}'};
    DeleteAfterKeep(text, d2, '\U{2500}');
    var d3 := d2 + {'\U{2500}'};
    DeleteAfterKeep(text, d3, '\U{253C}');
    var d4 := d3 + {'\U{253C}'};
    DeleteAfterKeep(text, d4, '\U{2524}');
    var d5 := d4 + {'\U{2524}'};
    DeleteAfterKeep(text, d5, '\U{2502}');
    assert d5 + {'\U{2502}'} == Noise;
  }

  lemma {:induction false} KeepOutsideCounts(s: string, drop: set<char>)
    ensures forall c :: multiset(KeepOutside(s, drop))[c] == if c in drop then 0 else multiset(s)[c]
  {
    if s != [] {
      KeepOutsideCounts(s[1..], drop);
      assert s == [s[0]] + s[1..];
    }
  }

  lemma {:induction false} KeepOutsideTwice(s: string, drop: set<char>)
    ensures KeepOutside(KeepOutside(s, drop), drop) == KeepOutside(s, drop)
  {
    if s != [] {
      KeepOutsideTwice(s[1..], drop);
      var head := if s[0] in drop then [] else [s[0]];
      KeepDistributes(head, KeepOutside(s[1..], drop), drop);
    }
  }

  lemma {:induction false} KeepDistributes(a: string, b: string, drop: set<char>)
    ensures KeepOutside(a + b, drop) == KeepOutside(a, drop) + KeepOutside(b, drop)
  {
    if a != [] {
      assert (a + b)[1..] == a[1..] + b;
      KeepDistributes(a[1..], b, drop);
    } else {
      assert a + b == b;
    }
  }

  /** Every noise character is removed, every other character keeps its
      number of occurrences (the ideographic space U+3000 included). */
  lemma RemoveSpaceCounts(text: string)
    ensures forall c :: multiset(RemoveSpace(text))[c] == if c in Noise then 0 else multiset(text)[c]
    ensures multiset(RemoveSpace(text))[IdeographicSpace] == multiset(text)[IdeographicSpace]
  {
    RemoveSpaceIsFilter(text);
    KeepOutsideCounts(text, Noise);
    assert IdeographicSpace !in Noise;
  }

  lemma {:induction false} KeepOutsideClean(s: string, drop: set<char>)
    requires forall k | 0 <= k < |s| :: s[k] !in drop
    ensures KeepOutside(s, drop) == s
  {
    if s != [] {
      KeepOutsideClean(s[1..], drop);
    }
  }

  /** Text without spaces or box-drawing glyphs comes back unchanged. */
  lemma RemoveSpaceKeepsCleanText(text: string)
    requires forall k | 0 <= k < |text| :: text[k] !in Noise
    ensures RemoveSpace(text) == text
  {
    RemoveSpaceIsFilter(text);
    KeepOutsideClean(text, Noise);
  }

  /** Applying `remove_space` twice is the same as applying it once. */
  lemma RemoveSpaceIdempotent(text: string)
    ensures RemoveSpace(RemoveSpace(text)) == RemoveSpace(text)
  {
    RemoveSpaceIsFilter(text);
    RemoveSpaceIsFilter(RemoveSpace(text));
    KeepOutsideTwice(text, Noise);
  }

  // ---------------------------------------------------------------------------
  // Raw records

  /** One entry of `LawArticles`: keys ArticleType, ArticleNo, ArticleContent. */
  datatype RawArticle = RawArticle(fields: map<string, string>)

  /** One element of `Laws`: string-valued keys (LawLevel, LawName, LawURL,
      LawCategory, LawAbandonNote, ...) and the `LawArticles` list, None when
      the key is absent. */
  datatype RawLaw = RawLaw(fields: map<string, string>, articles: Option<seq<RawArticle>>)

  /** Why a run aborts: a dictionary lookup of an absent key, or a read of the
      local `article_no` before any 'A' entry bound it. */
  datatype TransformError = KeyError(key: string) | UnboundLocalError(name: string)

  function Lookup(m: map<string, string>, key: string): (r: Result<string, TransformError>)
    ensures r.Ok? <==> key in m
    ensures r.Ok? ==> r.value == m[key]
    ensures r.Err? ==> r.error == KeyError(key)
  {
    if key in m then Ok(m[key]) else Err(KeyError(key))
  }

  /** The per-law values the source reads before deciding whether to skip it. */
  datatype Header = Header(level: string, name: string, url: string, category: string, abandonNote: string)

  /** Lines 50-57: five lookups, in this order, for every law (skipped ones included). */
  function ReadHeader(law: RawLaw): Result<Header, TransformError> {
    var level :- Lookup(law.fields, "LawLevel");
    var name :- Lookup(law.fields, "LawName");
    var url :- Lookup(law.fields, "LawURL");
    var category :- Lookup(law.fields, "LawCategory");
    var note :- Lookup(law.fields, "LawAbandonNote");
    Ok(Header(level, name, url, category, note))
  }

  /** Some allowed category is a substring of the law's category. */
  predicate CategoryAllowed(allowed: seq<string>, category: string) {
    exists k | 0 <= k < |allowed| :: IsSubstring(allowed[k], category)
  }

  /** A law contributes rows only when it is not abandoned and, if a category
      list is given, its category matches one entry. */
  predicate Keeps(allowed: seq<string>, h: Header) {
    !Truthy(h.abandonNote) && (|allowed| == 0 || CategoryAllowed(allowed, h.category))
  }

  /** The values of `article_no` and `article_content` (after normalisation). */
  datatype Article = Article(no: string, content: string)

  /** The loop state: rows appended so far, `article_content_chapter`, and the
      article that `article_no`/`article_content` hold (None while unbound).
      Those two locals belong to the whole function, so they survive from one
      law to the next. */
  datatype Scan = Scan(rows: seq<Law>, chapter: string, last: Option<Article>)

  function MakeRow(h: Header, chapter: string, no: string, content: string): Law {
    Law(h.level, h.name, h.url, h.category, chapter, no, content)
  }

  /** Lines 89-91 for an 'A' entry; otherwise the article left over from before. */
  function CurrentArticle(a: RawArticle, articleType: string, last: Option<Article>): Result<Article, TransformError> {
    if articleType == "A" then
      var no :- Lookup(a.fields, "ArticleNo");
      var content :- Lookup(a.fields, "ArticleContent");
      Ok(Article(no, content))
    else if last.Some? then
      Ok(last.value)
    else
      Err(UnboundLocalError("article_no"))
  }

  /** One iteration of the inner loop (lines 85-107). */
  function ArticleStep(h: Header, st: Scan, a: RawArticle): Result<Scan, TransformError> {
    var articleType :- Lookup(a.fields, "ArticleType");
    if articleType == "C" then
      var chapter :- Lookup(a.fields, "ArticleContent");
      Ok(st.(chapter := chapter))
    else
      var current :- CurrentArticle(a, articleType, st.last);
      var chapter := RemoveSpace(st.chapter);
      var no := RemoveSpace(current.no);
      var content := RemoveSpace(current.content);
      Ok(Scan(st.rows + [MakeRow(h, chapter, no, content)], chapter, Some(Article(no, content))))
  }

  /** The inner loop over the entries of one law. */
  function RunArticles(h: Header, st: Scan, arts: seq<RawArticle>): Result<Scan, TransformError>
    decreases |arts|
  {
    if arts == [] then Ok(st)
    else
      var next :- ArticleStep(h, st, arts[0]);
      RunArticles(h, next, arts[1..])
  }

  /** `LawArticles`, or the KeyError its lookup raises. */
  function ReadArticles(law: RawLaw): Result<seq<RawArticle>, TransformError> {
    if law.articles.Some? then Ok(law.articles.value) else Err(KeyError("LawArticles"))
  }

  /** One iteration of the outer loop (lines 50-107). */
  function LawStep(allowed: seq<string>, st: Scan, law: RawLaw): Result<Scan, TransformError> {
    var h :- ReadHeader(law);
    if !Keeps(allowed, h) then Ok(st)
    else
      var arts :- ReadArticles(law);
      RunArticles(h, st.(chapter := ""), arts)
  }

  /** The outer loop over the laws. */
  function RunLaws(allowed: seq<string>, st: Scan, data: seq<RawLaw>): Result<Scan, TransformError>
    decreases |data|
  {
    if data == [] then Ok(st)
    else
      var next :- LawStep(allowed, st, data[0]);
      RunLaws(allowed, next, data[1..])
  }

  const Start: Scan := Scan([], "", None)

  /** What `transformer(data, allowed_category)` returns, or the error it raises. */
  function Transform(data: seq<RawLaw>, allowed: seq<string>): Result<LawCollection, TransformError> {
    var st :- RunLaws(allowed, Start, data);
    Ok(LawCollection(st.rows))
  }

  // ---------------------------------------------------------------------------
  // transformer, as the nested loops it is written as

  /** The inner loop of `transformer` over the entries of one kept law, with
      the chapter reset to "" and the rows and last article carried over. */
  method ArticlesLoop(h: Header, rows0: seq<Law>, last0: Option<Article>, arts: seq<RawArticle>)
    returns (r: Result<Scan, TransformError>)
    ensures r == RunArticles(h, Scan(rows0, "", last0), arts)
  {
    var rows, chapter, last := rows0, "", last0;
    var j := 0;
    while j < |arts|
      invariant 0 <= j <= |arts|
      invariant RunArticles(h, Scan(rows0, "", last0), arts) == RunArticles(h, Scan(rows, chapter, last), arts[j..])
    {
      var art := arts[j];
      assert arts[j..][0] == art && arts[j..][1..] == arts[j + 1..];
      if "ArticleType" !in art.fields {
        return Err(KeyError("ArticleType"));
      }
      var articleType := art.fields["ArticleType"];
      if articleType == "C" {
        if "ArticleContent" !in art.fields {
          return Err(KeyError("ArticleContent"));
        }
        chapter := art.fields["ArticleContent"];
        j := j + 1;
        continue;
      }
      if articleType == "A" {
        if "ArticleNo" !in art.fields {
          return Err(KeyError("ArticleNo"));
        }
        if "ArticleContent" !in art.fields {
          return Err(KeyError("ArticleContent"));
        }
        last := Some(Article(art.fields["ArticleNo"], art.fields["ArticleContent"]));
      }
      if last.None? {
        return Err(UnboundLocalError("article_no"));
      }
      chapter := RemoveSpace(chapter);
      var no := RemoveSpace(last.value.no);
      var content := RemoveSpace(last.value.content);
      last := Some(Article(no, content));
      rows := rows + [MakeRow(h, chapter, no, content)];
      j := j + 1;
    }
    assert arts[j..] == [];
    r := Ok(Scan(rows, chapter, last));
  }

  /** Walks the laws and their entries, appending one row per non-chapter entry
      of every kept law; any missing key or unbound `article_no` aborts the
      whole call with no partial collection. */
  method Transformer(data: seq<RawLaw>, allowed: seq<string>) returns (r: Result<LawCollection, TransformError>)
    ensures r == Transform(data, allowed)
  {
    var rows: seq<Law> := [];
    var chapter := "";
    var last: Option<Article> := None;
    var i := 0;
    while i < |data|
      invariant 0 <= i <= |data|
      invariant RunLaws(allowed, Start, data) == RunLaws(allowed, Scan(rows, chapter, last), data[i..])
    {
      var law := data[i];
      assert data[i..][0] == law && data[i..][1..] == data[i + 1..];
      var header := ReadHeader(law);
      if header.Err? {
        return Err(header.error);
      }
      var h := header.value;
      if Truthy(h.abandonNote) {
        i := i + 1;
        continue;
      }
      if |allowed| > 0 {
        var found := false;
        var k := 0;
        while k < |allowed|
          invariant 0 <= k <= |allowed|
          invariant !found
          invariant forall c | 0 <= c < k :: !IsSubstring(allowed[c], h.category)
        {
          if IsSubstring(allowed[k], h.category) {
            found := true;
            break;
          }
          k := k + 1;
        }
        if !found {
          i := i + 1;
          continue;
        }
      }
      if law.articles.None? {
        return Err(KeyError("LawArticles"));
      }
      var next := ArticlesLoop(h, rows, last, law.articles.value);
      if next.Err? {
        return Err(next.error);
      }
      rows, chapter, last := next.value.rows, next.value.chapter, next.value.last;
      i := i + 1;
    }
    assert data[i..] == [];
    r := Ok(LawCollection(rows));
  }
}
