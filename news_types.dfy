/**
  The values that flow through the article-analysis pipeline: upstream
  article objects, the two model outputs, and the analysed records.
 */
module NewsTypes {
  import opened Wrappers

  /**
    One article object of the news service. Each field is what `dict.get`
    returns for its key: `None` for a missing key or a JSON null.
   */
  datatype Article = Article(
    title: Option<string>,
    content: Option<string>,
    description: Option<string>,
    publishedAt: Option<string>)

  /** A sentiment label (the `label` key of the source dict) with its confidence score. */
  datatype Sentiment = Sentiment(polarity: string, score: real)

  /** One named entity found by the recognizer: its text and its type (`ent.label_` in the source). */
  datatype Entity = Entity(text: string, kind: string)

  /** The sentiment classifier, applied to one text; `None` when the call raises. */
  type Classifier = string -> Option<Sentiment>

  /** The named-entity recognizer, applied to one text; `Err` carries the exception's text when it raises. */
  type Recognizer = string -> Result<seq<Entity>, string>

  /** What the analysis of one text yields: its sentiment and its entity lists by category. */
  datatype Analysis = Analysis(sentiment: Sentiment, entities: map<string, seq<string>>)

  /** One element of the JSON array the API returns. */
  datatype AnalyzedArticle = AnalyzedArticle(
    id: nat,
    title: Option<string>,
    content: string,
    publishedAt: Option<string>,
    sentiment: Sentiment,
    entities: map<string, seq<string>>)
}
