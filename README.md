# News analyzer: the article-analysis pipeline

This Dafny project models the analysis core of a small Flask news
dashboard. The upstream news service answers a query with a list of
articles. The application keeps each article that has text. It runs a
sentiment classifier over the first 512 characters of that text. It runs a
named-entity recognizer over the whole text. It returns one JSON record per
kept article. A classifier score below 0.95 turns the label into `NEUTRAL`.
Only PERSON, ORG and GPE entities are kept, and each of their lists is
deduplicated.

The two pretrained models are parameters:
- `Classifier = string -> Option<Sentiment>`, where `None` means the call raised.
- `Recognizer = string -> Result<seq<Entity>, string>`, where `Err` carries the exception's text.
- The recognizer is passed as `Option<Recognizer>`. `None` means the model did not load (`nlp_ner = None`).

The network request is also a parameter, `Query -> FetchOutcome`. It yields
either a RequestException's text or the decoded JSON payload.

Modules, one per file:
- `Wrappers` (`wrappers.dfy`): `Option` and `Result`.
- `NewsTypes` (`news_types.dfy`): articles, sentiments, entities, analysed records.
- `NlpAnalysis` (`nlp_analysis.dfy`): `perform_nlp_analysis`.
- `NewsProcessing` (`news_processing.dfy`): `process_news_data`.
- `NewsRoutes` (`news_routes.dfy`): the language code, the upstream status check, and the two API handlers `analyze_topic` and `latest_news`.

The loops in the source are methods with loop invariants:
- `PerformNlpAnalysis`, `CollectEntities` and `GroupEntities` are the two entity loops of `perform_nlp_analysis`.
- `ProcessNewsData` is the `enumerate` loop.

Each method is proved against specification predicates. Those predicates are
`AnalysisCorrect`, `EntitiesCorrect`, `OutputCorrect` and `ResponseCorrect`,
built on the functions `SentimentOf`, `TextsWithLabel`, `Kept` and
`FirstFailure`. Lemmas about these functions state the properties the
application promises.

Where the code and its design description differ, the model follows the code:
- A record's `id` is the article's index in the input list (from `enumerate`). It is not its position among the kept articles, so ids have gaps after a skipped article (`KeptAtPosition`).
- The upstream `message` is read with `dict.get(key, default)`. Only a missing key gives `Unknown API error`. An empty message stays empty, and a JSON null renders as `None`.
- `articles` is read the same way. A missing key means no articles. A JSON null makes `enumerate(None)` raise, which becomes a 500 response.
- A recognizer exception is not caught inside `perform_nlp_analysis`. It aborts the whole list and becomes a 500 response carrying the exception's text. Only a classifier exception is absorbed per article.

## Model

| member | source | states |
|---|---|---|
| `NlpAnalysis.Truncate` | app.py:141 | the classifier's input is the prefix of the text of length min(512, its length) |
| `NlpAnalysis.SentimentOf` | app.py:140-145 | a classifier exception gives UNKNOWN with score 0.0; otherwise the score is the classifier's; below 0.95 the label is NEUTRAL; at 0.95 or above the result is the classifier's own |
| `NlpAnalysis.SentimentIgnoresTail` | app.py:141 | characters after the 512th never change the sentiment |
| `NlpAnalysis.TextsWithLabelMembers` | app.py:150-152 | a text is collected under a category exactly when some recognised entity of that type carries it |
| `NlpAnalysis.Distinct` | app.py:154 | `list(set(xs))` has no duplicates and the same members as `xs` |
| `NlpAnalysis.NoEntitiesFound` | app.py:147-148 | with no recognised entities (or no recognizer) the dict is PERSON, ORG and GPE mapped to empty lists |
| `NlpAnalysis.CollectEntities` | app.py:147-152 | after the append loop the dict has exactly the three keys and each holds, in order, the texts of the entities of that type |
| `NlpAnalysis.GroupEntities` | app.py:147-154 | after deduplication every list is duplicate-free and as a set equals the texts of that type's entities; exactly the three keys |
| `NlpAnalysis.PerformNlpAnalysis` | app.py:138-156 | the analysis raises exactly when the loaded recognizer raises, with its message; otherwise the sentiment is `SentimentOf` the text and the entity dict is correct for the recognizer's output (empty lists when it did not load) |
| `NewsProcessing.ResolveText` | app.py:162 | a non-empty content is used verbatim; a description is used only when the content is missing or empty; the text is empty exactly when both are |
| `NewsProcessing.KeptMembers` | app.py:161-163 | the kept indexes are below the input length and are exactly those of articles whose resolved text is non-empty |
| `NewsProcessing.KeptIncreasing` | app.py:161-166 | kept indexes are strictly increasing, so input order is preserved |
| `NewsProcessing.KeptLength` | app.py:161-163 | at most one record per article, and one for every article exactly when none is skipped |
| `NewsProcessing.KeptAtPosition` | app.py:161-166 | an id is at least its output position, and equals it exactly when no earlier article was skipped |
| `NewsProcessing.FirstFailureStable` | app.py:164 | once the recognizer has raised, later articles do not change the outcome |
| `NewsProcessing.FirstFailureCharacterized` | app.py:149 | the list fails exactly when the recognizer raises on some kept article, and the text is that of the first such article |
| `NewsProcessing.ProcessNewsData` | app.py:158-174 | fails with the first recognizer exception among the kept articles; otherwise one record per kept article, in order, with id = input index, title and publishedAt copied, content = resolved text, and a correct analysis of that text |
| `NewsProcessing.OutputIds` | app.py:158-174 | in a returned list ids strictly increase and are below the input length, every record has text, and every article with text has a record |
| `NewsProcessing.NothingSkipped` | app.py:161-166 | when no article is skipped there are as many records as articles and each id is its position |
| `NewsRoutes.LanguageCode` | app.py:183 | the code is `hi` exactly when the stored language is `Hindi`, and `en` otherwise |
| `NewsRoutes.KeywordOrDefault` | app.py:180 | a missing keyword parameter becomes `default topic`; a given one is used as is |
| `NewsRoutes.Rejection` | app.py:191-193 | a payload is rejected exactly when its status is not `ok`, with `News API Error: ` followed by its message, or by `Unknown API error` when the key is missing |
| `NewsRoutes.ArticleList` | app.py:195 | a missing `articles` key gives the empty list, a present list is used as is, and a null one cannot be iterated |
| `NewsRoutes.HandleNewsResponse` | app.py:186-202 | a transport failure gives 500; a failed status gives 400 with the upstream message; a null article list or a recognizer exception gives 500; otherwise 200 with the processed articles |
| `NewsRoutes.AnalyzeTopic` | app.py:176-202 | the keyword query is sent in the user's language code and its outcome is answered as above |
| `NewsRoutes.LatestNews` | app.py:204-228 | the fixed English "news" query, newest first, is sent and its outcome is answered as above |
| `NewsRoutes.ResponseStatus` | app.py:186-202 | errors are 400 or 500; 400 exactly when the upstream status is not `ok`; 200 exactly when the articles were processed without a recognizer exception |
| `NewsRoutes.QuotaExceeded` | app.py:191-193 | a `quota exceeded` rejection is answered with 400 and `News API Error: quota exceeded` |
| `NewsRoutes.BlankArticleDropped` | app.py:161-163 | a single article with empty content and description is answered with an empty array |
| `NewsRoutes.SingleArticle` | app.py:138-174 | one article with text and no entities yields one record with id 0, its fields, the classifier's label at score 0.95 or above (NEUTRAL below), and three empty entity lists |

## Left out

- Flask setup, templates, the authentication and profile routes, sessions, the `User` table and password hashing: framework and account plumbing outside the pipeline.
- Loading the models (nltk data, `spacy.load`, the transformers pipeline) and their inference: replaced by the `Classifier` and `Recognizer` parameters and the `Option` saying whether the recognizer loaded.
- `requests.get`, `raise_for_status` and JSON decoding: network I/O. All three kinds of failure are one `Unreachable(reason)` input, and `reason` stands for the exception's text.
- Building the upstream URL string and the placeholder API key: configuration. The handlers build a `Query` value with the search term, the language code and the sort order instead.
- Floating-point semantics of the score: the score is a `real`, compared with 0.95 exactly.
- Non-string JSON values in the upstream payload or in article fields, and a payload or article that is not a JSON object: the model types them as optional strings and records.
- NlpAnalysis.Distinct: states only that its list is duplicate-free with the same members. `list(set(...))` gives no particular order, so the order the model happens to produce is not part of any promise.
- Concurrent requests sharing the loaded models: each call is modelled on its own, since the pipeline keeps no state between requests.
