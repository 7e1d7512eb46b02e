/**
 * The recommender's shared pieces: the Chroma filter translator that gives
 * `LIKE` a list-membership meaning, the metadata schema handed to the query
 * constructor, and the input variables of the generation prompt.
 */
module RecommenderUtils {
  import opened Common
  import opened Documents
  import Embedding
  import Text

  /** LangChain's structured-query comparators. */
  datatype Comparator = Eq | Ne | Gt | Gte | Lt | Lte | Contain | Like | In | Nin

  /** JSON-like values: filter values and the filters the translator emits. */
  datatype Json = JNull | JBool(b: bool) | JNum(repr: string) | JStr(s: string) | JArr(items: seq<Json>) | JObj(fields: map<string, Json>)

  /** One comparison of a structured query: `comparator(attribute, value)`. */
  datatype Comparison = Comparison(comparator: Comparator, attribute: string, value: Json)

  /** The filter `{attribute: {"$in": values}}`. */
  function InFilter(attribute: string, values: seq<Json>): Json
  {
    JObj(map[attribute := JObj(map["$in" := JArr(values)])])
  }

  /**
   * The comparator list built by the constructor from the base translator's
   * list (`None` read as empty): the base comparators and `LIKE`, each exactly
   * once, in the order in which the set happens to be enumerated.
   */
  method WithLike(base: Option<seq<Comparator>>) returns (r: seq<Comparator>)
    ensures Like in r
    ensures forall c :: c in r <==> c == Like || (base.Some? && c in base.value)
    ensures NoDuplicates(r)
    ensures base.None? ==> r == [Like]
  {
    var start := if base.None? then [] else base.value;
    var pending := (set c | c in start) + {Like};
    r := [];
    while pending != {}
      invariant NoDuplicates(r)
      invariant forall c :: c in r ==> c !in pending
      invariant forall c :: c in r || c in pending <==> c == Like || c in start
      decreases |pending|
    {
      var c :| c in pending;
      r := r + [c];
      pending := pending - {c};
    }
    if base.None? {
      OnlyLike(r);
    }
  }

  /** A duplicate-free list whose only member is `LIKE` is `[LIKE]`. */
  lemma OnlyLike(r: seq<Comparator>)
    requires NoDuplicates(r)
    requires forall c :: c in r <==> c == Like
    ensures r == [Like]
  {
    assert (set c | c in r) == {Like};
    DistinctCardinality(r);
    assert r[0] in r;
  }

  /** `CustomChromaTranslator`. */
  class CustomChromaTranslator {
    var allowedComparators: seq<Comparator>

    /** `__init__`: `baseAllowed` is the list the base translator's constructor leaves. */
    constructor (baseAllowed: Option<seq<Comparator>>)
      ensures Like in allowedComparators
      ensures forall c :: c in allowedComparators <==> c == Like || (baseAllowed.Some? && c in baseAllowed.value)
      ensures NoDuplicates(allowedComparators)
      ensures baseAllowed.None? ==> allowedComparators == [Like]
    {
      var r := WithLike(baseAllowed);
      allowedComparators := r;
    }

    /**
     * `visit_comparison`: `LIKE(attr, v)` becomes `{attr: {"$in": [v]}}`, a
     * map with the single key `attr`; every other comparison is left to the
     * base translator's `baseVisit`.
     */
    function VisitComparison(c: Comparison, baseVisit: Comparison -> Json): (r: Json)
      ensures c.comparator == Like ==> r == InFilter(c.attribute, [c.value])
      ensures c.comparator == Like ==> r.JObj? && r.fields.Keys == {c.attribute}
      ensures c.comparator != Like ==> r == baseVisit(c)
    {
      if c.comparator == Like then InFilter(c.attribute, [c.value])
      else baseVisit(c)
    }
  }

  // ---------------------------------------------------------------------
  // how the vector store evaluates the `$in` filter

  /** A metadata cell as the store sees it. */
  function CellValue(c: Cell): Json
  {
    match c
    case Missing => JNull
    case Str(s) => JStr(s)
    case Scalar(r) => JNum(r)
  }

  /**
   * One operator of a `where` clause on `attribute`. `$in` holds when the
   * document has the attribute and its (scalar) value equals one of the
   * listed values; the other operators are evaluated by `evalOther`.
   */
  predicate OperatorHolds(attribute: string, op: string, arg: Json, metadata: map<string, Cell>,
                          evalOther: (string, string, Json, map<string, Cell>) -> bool)
  {
    if op == "$in" then arg.JArr? && attribute in metadata && CellValue(metadata[attribute]) in arg.items
    else evalOther(attribute, op, arg, metadata)
  }

  /**
   * The store's evaluation of a `where` filter `{attribute: {op: arg, ...}, ...}`
   * against a document's metadata: every operator of every attribute holds.
   */
  predicate Matches(filter: Json, metadata: map<string, Cell>,
                    evalOther: (string, string, Json, map<string, Cell>) -> bool)
  {
    && filter.JObj?
    && forall attribute :: attribute in filter.fields ==>
         && filter.fields[attribute].JObj?
         && forall op :: op in filter.fields[attribute].fields ==>
              OperatorHolds(attribute, op, filter.fields[attribute].fields[op], metadata, evalOther)
  }

  /**
   * The translated `LIKE` matches a document exactly when its attribute
   * holds the value as a whole string: whole-value equality, not substring
   * search.
   */
  lemma LikeIsExactEquality(t: CustomChromaTranslator, metadata: map<string, Cell>, attribute: string, v: string,
                            baseVisit: Comparison -> Json, evalOther: (string, string, Json, map<string, Cell>) -> bool)
    ensures Matches(t.VisitComparison(Comparison(Like, attribute, JStr(v)), baseVisit), metadata, evalOther)
      <==> attribute in metadata && metadata[attribute] == Str(v)
  {
    var filter := t.VisitComparison(Comparison(Like, attribute, JStr(v)), baseVisit);
    assert filter == InFilter(attribute, [JStr(v)]);
    assert filter.fields[attribute].fields["$in"] == JArr([JStr(v)]);
  }

  /**
   * Sizes are indexed as one comma-joined string, so a `LIKE` on the sizes
   * attribute for a single size (no comma inside) never matches a product
   * offering two or more sizes, even when that size is among them.
   */
  lemma LikeMissesJoinedSizes(t: CustomChromaTranslator, metadata: map<string, Cell>, raw: string, v: string,
                               baseVisit: Comparison -> Json, evalOther: (string, string, Json, map<string, Cell>) -> bool)
    requires Text.Count(raw, ',') > 0
    requires Embedding.SizesColumn in metadata
    requires metadata[Embedding.SizesColumn] == Str(Embedding.ConvertSizes(Str(raw)))
    requires ',' !in v
    ensures !Matches(t.VisitComparison(Comparison(Like, Embedding.SizesColumn, JStr(v)), baseVisit), metadata, evalOther)
  {
    LikeIsExactEquality(t, metadata, Embedding.SizesColumn, v, baseVisit, evalOther);
    var stored := Embedding.ConvertSizes(Str(raw));
    assert Text.Count(stored, ',') > 0;
    if ',' !in stored {
      Text.CountAbsent(stored, ',');
    }
  }

  // ---------------------------------------------------------------------
  // the schema

  datatype AttributeInfo = AttributeInfo(name: string, description: string)

  /** `ATTRIBUTE_INFO`. */
  const AttributeInfoList: seq<AttributeInfo> := [
    AttributeInfo("Product Details", "Details about the product"),
    AttributeInfo("Brand Name", "Name of the brand"),
    AttributeInfo("Available Sizes",
      "Sizes available for the product (stored as a comma-separated string, e.g., 'small, medium, large'). "
      + "Use the `like` operator to check if a size is included. "
      + "Example: `like(\"Available Sizes\", \"xl\")` to find products that have XL in their size options."),
    AttributeInfo("Product Price", "Price of the product. Use `lt`, `lte`, `gt`, or `gte` for filtering.")]

  /** `DOC_CONTENT`. */
  const DocContent: string :=
    "A detailed description of an e-commerce product, including its features, benefits, and specifications."

  function Names(infos: seq<AttributeInfo>): (r: seq<string>)
    ensures |r| == |infos| && forall i :: 0 <= i < |infos| ==> r[i] == infos[i].name
  {
    seq(|infos|, i requires 0 <= i < |infos| => infos[i].name)
  }

  /**
   * The declared attribute names are, in order, the columns kept at
   * indexing time: four distinct names.
   */
  function AttributeNames(): (r: seq<string>)
    ensures r == Embedding.ValidColumns
    ensures |r| == 4 && NoDuplicates(r)
  {
    Names(AttributeInfoList)
  }

  /**
   * When the raw file has every source column and no repeated name after
   * renaming, the saved header has no repeats (so reading it back renames
   * nothing) and every indexed document has exactly the declared attributes
   * as its metadata keys: every attribute the query constructor may filter
   * on is present in every document.
   */
  lemma AttributesAreDocumentKeys(rawColumns: seq<string>, saved: seq<Embedding.Row>,
                                  convertPrice: Cell -> Cell, dumps: map<string, Cell> -> string)
    requires NoDuplicates(Embedding.CleanColumnNames(rawColumns))
    requires forall i :: 0 <= i < |AttributeNames()| ==> AttributeNames()[i] in Embedding.CleanColumnNames(rawColumns)
    requires var cleaned := Embedding.CleanColumnNames(rawColumns);
      forall i :: 0 <= i < |saved| ==> |saved[i].cells| == |Embedding.Pick(cleaned, Embedding.Projection(cleaned))|
    ensures var cleaned := Embedding.CleanColumnNames(rawColumns);
      var cols := Embedding.Pick(cleaned, Embedding.Projection(cleaned));
      var docs := Embedding.ToDocuments(cols, Embedding.Converted(Embedding.ReadProcessed(saved), cols, convertPrice), dumps);
      && NoDuplicates(cols)
      && forall i :: 0 <= i < |docs| ==> docs[i].metadata.Keys == set n | n in AttributeNames()
  {
    ProjectedColumns(Embedding.CleanColumnNames(rawColumns));
  }

  /** Distinct renamed columns holding every attribute project to the attributes, each once. */
  lemma ProjectedColumns(cleaned: seq<string>)
    requires NoDuplicates(cleaned)
    requires forall i :: 0 <= i < |AttributeNames()| ==> AttributeNames()[i] in cleaned
    ensures var cols := Embedding.Pick(cleaned, Embedding.Projection(cleaned));
      NoDuplicates(cols) && (set c | c in cols) == set n | n in AttributeNames()
  {
    Embedding.ProjectionOfDistinct(cleaned);
    var names := Embedding.SelectedNames(cleaned);
    assert forall n :: n in AttributeNames() ==> n in cleaned;
    assert (set c | c in names) == set n | n in AttributeNames();
  }

  /** `get_metadata_info`: the schema and the document-content description. */
  function GetMetadataInfo(): (r: (seq<AttributeInfo>, string))
    ensures r.0 == AttributeInfoList && Names(r.0) == Embedding.ValidColumns
    ensures r.1 == DocContent
  {
    (AttributeInfoList, DocContent)
  }

  /** The input variables of the generation prompt (`create_rag_template`). */
  const RagInputVariables: seq<string> := ["docs", "query"]
}
