// The record types of app/dto/law.py: one transformed law article and the
// ordered collection of them, with the JSON object each is serialised to.
module LawDto {
  import opened Common

  /** One article of one law, flattened. Frozen in the source, so a value here. */
  datatype Law = Law(
    LawLevel: string,
    LawName: string,
    LawURL: string,
    LawCategory: string,
    LawArticleChapter: string,
    LawArticleNo: string,
    LawArticleContent: string)

  /** The ordered list of articles; insertion order is source order, duplicates allowed. */
  datatype LawCollection = LawCollection(data: seq<Law>)

  /** The JSON keys; each equals the name of the field it holds. */
  const FieldKeys: seq<string> := [
    "LawLevel", "LawName", "LawURL", "LawCategory",
    "LawArticleChapter", "LawArticleNo", "LawArticleContent"]

  /** The JSON object written for one `Law` (every key is the field's own name). */
  function ToJsonObject(law: Law): (obj: map<string, string>)
    ensures obj.Keys == set k | k in FieldKeys
  {
    map[
      "LawLevel" := law.LawLevel,
      "LawName" := law.LawName,
      "LawURL" := law.LawURL,
      "LawCategory" := law.LawCategory,
      "LawArticleChapter" := law.LawArticleChapter,
      "LawArticleNo" := law.LawArticleNo,
      "LawArticleContent" := law.LawArticleContent]
  }

  /** Reads a `Law` back from a JSON object; a missing key is a failure. */
  function FromJsonObject(obj: map<string, string>): (r: Option<Law>)
    ensures r.Some? <==> forall k | k in FieldKeys :: k in obj
  {
    if forall k | k in FieldKeys :: k in obj then
      Some(Law(obj["LawLevel"], obj["LawName"], obj["LawURL"], obj["LawCategory"],
               obj["LawArticleChapter"], obj["LawArticleNo"], obj["LawArticleContent"]))
    else
      None
  }

  /** Serialising a record and reading it back gives the same record. */
  lemma JsonRoundTrip(law: Law)
    ensures FromJsonObject(ToJsonObject(law)) == Some(law)
  {
  }

  /** The article objects of a collection: one per article, in order. */
  function ToJsonList(c: LawCollection): (objs: seq<map<string, string>>)
    ensures |objs| == |c.data|
    ensures forall i | 0 <= i < |objs| :: FromJsonObject(objs[i]) == Some(c.data[i])
  {
    seq(|c.data|, i requires 0 <= i < |c.data| => ToJsonObject(c.data[i]))
  }
  /** The JSON file of a collection: the dataclass as one object whose only
      key, `data`, holds the list of article objects. */
  datatype CollectionFile = CollectionFile(data: seq<map<string, string>>)

  /** Reads the article objects back, in order; one lacking a key fails. */
  function FromJsonObjects(objs: seq<map<string, string>>): (r: Option<seq<Law>>)
    ensures r.Some? <==> forall i | 0 <= i < |objs| :: FromJsonObject(objs[i]).Some?
    ensures r.Some? ==>
      && |r.value| == |objs|
      && forall i | 0 <= i < |objs| :: FromJsonObject(objs[i]) == Some(r.value[i])
  {
    if objs == [] then Some([])
    else match (FromJsonObject(objs[0]), FromJsonObjects(objs[1..]))
      case (Some(law), Some(rest)) => Some([law] + rest)
      case _ => None
  }

  /** Reads a collection back from its JSON file. */
  function FromJsonFile(f: CollectionFile): Option<LawCollection> {
    match FromJsonObjects(f.data)
    case Some(laws) => Some(LawCollection(laws))
    case None => None
  }

  /** `collection.to_json_file(...)`: the `data` list holds one object per
      article, in order, and the file reads back as the same collection. */
  function ToJsonFile(c: LawCollection): (f: CollectionFile)
    ensures |f.data| == |c.data|
    ensures FromJsonFile(f) == Some(c)
  {
    var objs := ToJsonList(c);
    var laws := FromJsonObjects(objs);
    assert laws.Some?;
    assert laws.value == c.data;
    CollectionFile(objs)
  }
}
