/**
 * Product documents and the `format_docs` helper that the self-query node
 * and the ranker node each define, identically, to render retrieved
 * documents as one bulleted text block.
 */
module Documents {
  import opened Text

  /** One cell of a data frame, or one metadata value: pandas' missing value, a string, or any other scalar. */
  datatype Cell = Missing | Str(text: string) | Scalar(repr: string)

  /** A LangChain `Document`: its text, its metadata (one row as a dictionary) and its id. */
  datatype Document = Document(pageContent: string, metadata: map<string, Cell>, id: int)

  const Separator: string := "\n\n"

  /** The entry `"- " + page_content` of one document. */
  function Bullet(d: Document): string
  {
    "- " + d.pageContent
  }

  function Bullets(docs: seq<Document>): (r: seq<string>)
    ensures |r| == |docs|
    ensures forall i :: 0 <= i < |docs| ==> r[i] == Bullet(docs[i])
  {
    seq(|docs|, i requires 0 <= i < |docs| => Bullet(docs[i]))
  }

  /**
   * `format_docs`: the bullet entries joined by blank lines. The result is
   * empty exactly when there are no documents, and otherwise begins with the
   * first document's entry.
   */
  function FormatDocs(docs: seq<Document>): (r: string)
    ensures r == "" <==> |docs| == 0
    ensures |docs| > 0 ==> Bullet(docs[0]) <= r
  {
    Join(Separator, Bullets(docs))
  }

  /** A single document renders as its own entry. */
  lemma FormatDocsSingle(d: Document)
    ensures FormatDocs([d]) == "- " + d.pageContent
  {
  }

  /** Formatting keeps input order: the two halves of a list render side by side. */
  lemma FormatDocsConcat(a: seq<Document>, b: seq<Document>)
    requires |a| > 0 && |b| > 0
    ensures FormatDocs(a + b) == FormatDocs(a) + Separator + FormatDocs(b)
  {
    assert Bullets(a + b) == Bullets(a) + Bullets(b);
    JoinConcat(Separator, Bullets(a), Bullets(b));
  }

  /** Appending a document appends a blank line and its entry. */
  lemma FormatDocsAppend(docs: seq<Document>, d: Document)
    requires |docs| > 0
    ensures FormatDocs(docs + [d]) == FormatDocs(docs) + "\n\n- " + d.pageContent
  {
    FormatDocsConcat(docs, [d]);
  }
}
