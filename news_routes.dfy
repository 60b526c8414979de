/**
  The two API handlers around the pipeline (analyze_topic and latest_news in
  app.py): the language code, the upstream status check, and the mapping of
  every outcome to a JSON body with its HTTP status.
 */
module NewsRoutes {
  import opened Wrappers
  import opened NewsTypes
  import opened NlpAnalysis
  import opened NewsProcessing

  const DefaultKeyword: string := "default topic"
  const ApiErrorPrefix: string := "News API Error: "
  const DefaultApiMessage: string := "Unknown API error"
  const ConnectErrorPrefix: string := "Failed to connect to the news service: "
  const InternalErrorPrefix: string := "An internal server error occurred: "
  /** Python's text for the TypeError raised by `enumerate(None)`. */
  const NotIterableMessage: string := "'NoneType' object is not iterable"

  /** A key of the decoded upstream JSON object looked up with a default: missing, null, or a value. */
  datatype Field<+T> = Absent | Null | Present(value: T)

  /** The decoded JSON object the news service answers with. */
  datatype NewsPayload = NewsPayload(status: Option<string>, message: Field<string>, articles: Field<seq<Article>>)

  /**
    What the GET request yields: a transport, HTTP-status or decoding failure
    (a RequestException, with its text), or a decoded payload.
   */
  datatype FetchOutcome = Unreachable(reason: string) | Received(payload: NewsPayload)

  /** The query parameters the handlers put into the upstream URL. */
  datatype Query = Query(searchTerm: string, language: string, newestFirst: bool)

  /** The handler's answer: the analysed articles (HTTP 200), or `{"error": …}` with a status code. */
  datatype Response = Json(articles: seq<AnalyzedArticle>) | ErrorJson(code: nat, error: string)

  /** `'hi' if current_user.language == 'Hindi' else 'en'`. */
  function LanguageCode(language: Option<string>): (code: string)
    ensures code == "hi" <==> language == Some("Hindi")
    ensures code == "hi" || code == "en"
  {
    if language == Some("Hindi") then "hi" else "en"
  }

  /** `request.args.get('keyword', 'default topic')`. */
  function KeywordOrDefault(keyword: Option<string>): (term: string)
    ensures keyword.Some? ==> term == keyword.value
    ensures keyword.None? ==> term == DefaultKeyword
  {
    match keyword
    case Some(k) => k
    case None => DefaultKeyword
  }

  /** `response_data.get('message', 'Unknown API error')` as an f-string renders it. */
  function MessageText(message: Field<string>): string {
    match message
    case Absent => DefaultApiMessage
    case Null => "None"
    case Present(m) => m
  }

  /** The error text of a payload the service marks as failed; `None` when its status is "ok". */
  function Rejection(p: NewsPayload): (msg: Option<string>)
    ensures msg.None? <==> p.status == Some("ok")
    ensures msg.Some? ==> msg.value == ApiErrorPrefix + MessageText(p.message)
    ensures msg.Some? && p.message.Absent? ==> msg.value == "News API Error: Unknown API error"
    ensures msg.Some? && p.message.Present? ==> msg.value == "News API Error: " + p.message.value
  {
    if p.status != Some("ok") then Some(ApiErrorPrefix + MessageText(p.message)) else None
  }

  /** `response_data.get('articles', [])`; `None` when the key holds null, which cannot be iterated. */
  function ArticleList(p: NewsPayload): (xs: Option<seq<Article>>)
    ensures xs.None? <==> p.articles.Null?
    ensures p.articles.Absent? ==> xs == Some([])
    ensures p.articles.Present? ==> xs == Some(p.articles.value)
  {
    match p.articles
    case Absent => Some([])
    case Null => None
    case Present(a) => Some(a)
  }

  /** `resp` is the handler's answer to the fetch outcome `outcome`. */
  ghost predicate ResponseCorrect(outcome: FetchOutcome, classify: Classifier, ner: Option<Recognizer>, resp: Response) {
    match outcome
    case Unreachable(reason) => resp == ErrorJson(500, ConnectErrorPrefix + reason)
    case Received(p) =>
      if Rejection(p).Some? then resp == ErrorJson(400, Rejection(p).value)
      else if ArticleList(p).None? then resp == ErrorJson(500, InternalErrorPrefix + NotIterableMessage)
      else
        var xs := ArticleList(p).value;
        match FirstFailure(xs, ner, |xs|)
        case Some(e) => resp == ErrorJson(500, InternalErrorPrefix + e)
        case None => resp.Json? && OutputCorrect(xs, resp.articles, classify, ner)
  }

  /**
    The body of both handlers' `try` once the request has been made: reject a
    failed status with 400, otherwise analyse the articles; every exception
    becomes a 500.
   */
  method HandleNewsResponse(outcome: FetchOutcome, classify: Classifier, ner: Option<Recognizer>)
    returns (resp: Response)
    ensures ResponseCorrect(outcome, classify, ner, resp)
  {
    if outcome.Unreachable? {
      return ErrorJson(500, ConnectErrorPrefix + outcome.reason);
    }
    var payload := outcome.payload;
    var rejection := Rejection(payload);
    if rejection.Some? {
      return ErrorJson(400, rejection.value);
    }
    var newsData := ArticleList(payload);
    if newsData.None? {
      return ErrorJson(500, InternalErrorPrefix + NotIterableMessage);
    }
    var analyzed := ProcessNewsData(newsData.value, classify, ner);
    if analyzed.Err? {
      return ErrorJson(500, InternalErrorPrefix + analyzed.error);
    }
    return Json(analyzed.value);
  }

  /** analyze_topic: search for the keyword in the user's language. */
  method AnalyzeTopic(keyword: Option<string>, language: Option<string>, news: Query -> FetchOutcome,
                      classify: Classifier, ner: Option<Recognizer>)
    returns (resp: Response)
    ensures ResponseCorrect(news(Query(KeywordOrDefault(keyword), LanguageCode(language), false)), classify, ner, resp)
  {
    var query := Query(KeywordOrDefault(keyword), LanguageCode(language), false);
    resp := HandleNewsResponse(news(query), classify, ner);
  }

  /** latest_news: the fixed English query for "news", newest first. */
  method LatestNews(news: Query -> FetchOutcome, classify: Classifier, ner: Option<Recognizer>)
    returns (resp: Response)
    ensures ResponseCorrect(news(Query("news", "en", true)), classify, ner, resp)
  {
    resp := HandleNewsResponse(news(Query("news", "en", true)), classify, ner);
  }

  /**
    The status codes: 400 exactly when the service reports a failed status,
    200 exactly when the articles were analysed, 500 for every other outcome.
   */
  lemma ResponseStatus(outcome: FetchOutcome, classify: Classifier, ner: Option<Recognizer>, resp: Response)
    requires ResponseCorrect(outcome, classify, ner, resp)
    ensures resp.ErrorJson? ==> resp.code == 400 || resp.code == 500
    ensures (resp.ErrorJson? && resp.code == 400) <==> (outcome.Received? && outcome.payload.status != Some("ok"))
    ensures resp.Json? <==>
              && outcome.Received?
              && outcome.payload.status == Some("ok")
              && ArticleList(outcome.payload).Some?
              && FirstFailure(ArticleList(outcome.payload).value, ner, |ArticleList(outcome.payload).value|).None?
  {
  }

  /** A rejected request for an exhausted quota carries the upstream message. */
  lemma QuotaExceeded(classify: Classifier, ner: Option<Recognizer>, resp: Response)
    requires ResponseCorrect(Received(NewsPayload(Some("error"), Present("quota exceeded"), Absent)), classify, ner, resp)
    ensures resp == ErrorJson(400, "News API Error: quota exceeded")
  {
  }

  /** An article with empty content and description yields an empty array. */
  lemma BlankArticleDropped(classify: Classifier, ner: Option<Recognizer>, resp: Response)
    requires ResponseCorrect(Received(NewsPayload(Some("ok"), Absent,
                               Present([Article(Some("B"), Some(""), Some(""), None)]))), classify, ner, resp)
    ensures resp == Json([])
  {
    var xs := [Article(Some("B"), Some(""), Some(""), None)];
    assert !Survives(xs[0]);
    assert Kept(xs, 1) == [];
    assert FirstFailure(xs, ner, 1).None?;
  }

  /**
    One article analysed end to end: a confident classifier keeps its label,
    an unconfident one is overridden to NEUTRAL, and no entities give three
    empty lists.
   */
  lemma SingleArticle(classify: Classifier, ner: Option<Recognizer>, resp: Response, score: real)
    requires classify("Great news for the economy") == Some(Sentiment("POSITIVE", score))
    requires ner.Some? ==> ner.value("Great news for the economy") == Ok([])
    requires ResponseCorrect(Received(NewsPayload(Some("ok"), Absent,
               Present([Article(Some("A"), Some("Great news for the economy"), None, Some("2024-01-01"))]))),
               classify, ner, resp)
    ensures resp == Json([AnalyzedArticle(0, Some("A"), "Great news for the economy", Some("2024-01-01"),
                                          if score < 0.95 then Sentiment("NEUTRAL", score)
                                          else Sentiment("POSITIVE", score),
                                          NoEntities)])
  {
    var text := "Great news for the economy";
    var xs := [Article(Some("A"), Some(text), None, Some("2024-01-01"))];
    assert Survives(xs[0]);
    assert Kept(xs, 1) == [0];
    assert FirstFailure(xs, ner, 1).None?;
    assert Truncate(text) == text;
    var rec := resp.articles[0];
    NoEntitiesFound(rec.entities);
    assert resp.articles == [rec];
  }
}
