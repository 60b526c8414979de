/**
  The mapping of the analysis over a list of articles (process_news_data in
  app.py): text resolution, skipping of articles without text, numbering by
  input index, and propagation of a recognizer exception.
 */
module NewsProcessing {
  import opened Wrappers
  import opened NewsTypes
  import opened NlpAnalysis

  /** Python truthiness of a looked-up string: present and non-empty. */
  predicate Truthy(field: Option<string>) {
    field.Some? && field.value != ""
  }

  /** `content or description or ""`: the text an article is analysed by. */
  function ResolveText(a: Article): (t: string)
    ensures Truthy(a.content) ==> t == a.content.value
    ensures !Truthy(a.content) && t != "" ==> Truthy(a.description) && t == a.description.value
    ensures t != "" <==> Truthy(a.content) || Truthy(a.description)
  {
    if Truthy(a.content) then a.content.value
    else if Truthy(a.description) then a.description.value
    else ""
  }

  /** The article is not skipped by `if not content: continue`. */
  predicate Survives(a: Article) {
    ResolveText(a) != ""
  }

  /** The input indexes, among the first `n`, of the articles that are analysed, in order. */
  function Kept(articles: seq<Article>, n: nat): seq<nat>
    requires n <= |articles|
  {
    if n == 0 then []
    else Kept(articles, n - 1) + (if Survives(articles[n - 1]) then [n - 1] else [])
  }

  /** Exactly the surviving indexes below `n` are kept. */
  lemma {:induction false} KeptMembers(articles: seq<Article>, n: nat)
    requires n <= |articles|
    ensures forall j :: 0 <= j < |Kept(articles, n)| ==> Kept(articles, n)[j] < n
    ensures forall k :: 0 <= k < n ==> (k in Kept(articles, n) <==> Survives(articles[k]))
  {
    if n > 0 {
      KeptMembers(articles, n - 1);
    }
  }

  /** Kept indexes are strictly increasing: input order is preserved. */
  lemma {:induction false} KeptIncreasing(articles: seq<Article>, n: nat)
    requires n <= |articles|
    ensures forall i, j :: 0 <= i < j < |Kept(articles, n)| ==> Kept(articles, n)[i] < Kept(articles, n)[j]
  {
    if n > 0 {
      KeptIncreasing(articles, n - 1);
      KeptMembers(articles, n - 1);
    }
  }

  /** At most `n` indexes are kept, and all `n` exactly when no article below `n` is skipped. */
  lemma {:induction false} KeptLength(articles: seq<Article>, n: nat)
    requires n <= |articles|
    ensures |Kept(articles, n)| <= n
    ensures |Kept(articles, n)| == n <==> forall k :: 0 <= k < n ==> Survives(articles[k])
  {
    if n > 0 {
      KeptLength(articles, n - 1);
    }
  }

  /**
    A record's id equals its output position exactly when no article before
    it was skipped; after a skip, ids run ahead of positions.
   */
  lemma {:induction false} KeptAtPosition(articles: seq<Article>, n: nat, j: nat)
    requires n <= |articles|
    requires j < |Kept(articles, n)|
    ensures j <= Kept(articles, n)[j] < n
    ensures Kept(articles, n)[j] == j <==> forall k :: 0 <= k < Kept(articles, n)[j] ==> Survives(articles[k])
  {
    var prev := Kept(articles, n - 1);
    if j < |prev| {
      KeptAtPosition(articles, n - 1, j);
    } else {
      assert Kept(articles, n)[j] == n - 1;
      KeptLength(articles, n - 1);
    }
  }

  /**
    The exception text of the first analysed article, among the first `n`,
    on which the recognizer raises; `None` when there is none.
   */
  function FirstFailure(articles: seq<Article>, ner: Option<Recognizer>, n: nat): Option<string>
    requires n <= |articles|
  {
    if n == 0 then None
    else
      match FirstFailure(articles, ner, n - 1)
      case Some(e) => Some(e)
      case None =>
        var text := ResolveText(articles[n - 1]);
        if text != "" && NerRaises(ner, text) then Some(ner.value(text).error) else None
  }

  /** Once an exception has happened, later articles do not change it. */
  lemma {:induction false} FirstFailureStable(articles: seq<Article>, ner: Option<Recognizer>, n: nat, m: nat)
    requires n <= m <= |articles|
    requires FirstFailure(articles, ner, n).Some?
    ensures FirstFailure(articles, ner, m) == FirstFailure(articles, ner, n)
  {
    if n < m {
      FirstFailureStable(articles, ner, n, m - 1);
    }
  }

  /**
    There is no exception exactly when the recognizer raises on no analysed
    article; when there is one, it comes from an analysed article all of
    whose analysed predecessors went through.
   */
  lemma {:induction false} FirstFailureCharacterized(articles: seq<Article>, ner: Option<Recognizer>, n: nat)
    requires n <= |articles|
    ensures FirstFailure(articles, ner, n).None? <==>
              forall k :: 0 <= k < n && Survives(articles[k]) ==> !NerRaises(ner, ResolveText(articles[k]))
    ensures FirstFailure(articles, ner, n).Some? ==>
              exists k :: 0 <= k < n && Survives(articles[k]) && NerRaises(ner, ResolveText(articles[k]))
                && FirstFailure(articles, ner, n) == Some(ner.value(ResolveText(articles[k])).error)
                && forall i :: 0 <= i < k && Survives(articles[i]) ==> !NerRaises(ner, ResolveText(articles[i]))
  {
    if n > 0 {
      FirstFailureCharacterized(articles, ner, n - 1);
    }
  }

  /** `rec` is the record emitted for the article at input index `k`. */
  ghost predicate RecordCorrect(articles: seq<Article>, k: nat, rec: AnalyzedArticle,
                                classify: Classifier, ner: Option<Recognizer>)
  {
    && k < |articles|
    && rec.id == k
    && rec.title == articles[k].title
    && rec.content == ResolveText(articles[k])
    && rec.publishedAt == articles[k].publishedAt
    && AnalysisCorrect(classify, ner, rec.content, Analysis(rec.sentiment, rec.entities))
  }

  /** `out` holds one correct record per analysed article among the first `n`, in input order. */
  ghost predicate PrefixCorrect(articles: seq<Article>, n: nat, out: seq<AnalyzedArticle>,
                                classify: Classifier, ner: Option<Recognizer>)
    requires n <= |articles|
  {
    var ids := Kept(articles, n);
    && |out| == |ids|
    && forall j :: 0 <= j < |out| ==> RecordCorrect(articles, ids[j], out[j], classify, ner)
  }

  /** `out` is the list process_news_data returns for `articles`. */
  ghost predicate OutputCorrect(articles: seq<Article>, out: seq<AnalyzedArticle>,
                                classify: Classifier, ner: Option<Recognizer>)
  {
    PrefixCorrect(articles, |articles|, out, classify, ner)
  }

  /**
    process_news_data: analyse each article that has text, in order, and
    number its record by its input index. A recognizer exception aborts the
    whole list.
   */
  method ProcessNewsData(articles: seq<Article>, classify: Classifier, ner: Option<Recognizer>)
    returns (r: Result<seq<AnalyzedArticle>, string>)
    ensures r.Err? <==> FirstFailure(articles, ner, |articles|).Some?
    ensures r.Err? ==> FirstFailure(articles, ner, |articles|) == Some(r.error)
    ensures r.Ok? ==> OutputCorrect(articles, r.value, classify, ner)
  {
    var analyzed: seq<AnalyzedArticle> := [];
    for i := 0 to |articles|
      invariant FirstFailure(articles, ner, i).None?
      invariant PrefixCorrect(articles, i, analyzed, classify, ner)
    {
      var article := articles[i];
      var content := ResolveText(article);
      if content == "" {
        continue;
      }
      var analysis := PerformNlpAnalysis(content, classify, ner);
      if analysis.Err? {
        FirstFailureStable(articles, ner, i + 1, |articles|);
        return Err(analysis.error);
      }
      analyzed := analyzed + [AnalyzedArticle(i, article.title, content, article.publishedAt,
                                              analysis.value.sentiment, analysis.value.entities)];
    }
    return Ok(analyzed);
  }

  /**
    In a returned list the ids are strictly increasing input indexes, every
    record has text, and every article with text has a record.
   */
  lemma OutputIds(articles: seq<Article>, out: seq<AnalyzedArticle>, classify: Classifier, ner: Option<Recognizer>)
    requires OutputCorrect(articles, out, classify, ner)
    ensures forall i, j :: 0 <= i < j < |out| ==> out[i].id < out[j].id
    ensures forall j :: 0 <= j < |out| ==> out[j].id < |articles| && out[j].content != ""
    ensures forall k :: 0 <= k < |articles| && Survives(articles[k]) ==> exists j :: 0 <= j < |out| && out[j].id == k
  {
    var ids := Kept(articles, |articles|);
    KeptIncreasing(articles, |articles|);
    KeptMembers(articles, |articles|);
    forall k | 0 <= k < |articles| && Survives(articles[k])
      ensures exists j :: 0 <= j < |out| && out[j].id == k
    {
      var j :| 0 <= j < |ids| && ids[j] == k;
      assert out[j].id == k;
    }
  }

  /** When no article is skipped, the number of records is the number of articles and ids are positions. */
  lemma NothingSkipped(articles: seq<Article>, out: seq<AnalyzedArticle>, classify: Classifier, ner: Option<Recognizer>)
    requires OutputCorrect(articles, out, classify, ner)
    requires forall k :: 0 <= k < |articles| ==> Survives(articles[k])
    ensures |out| == |articles|
    ensures forall j :: 0 <= j < |out| ==> out[j].id == j
  {
    KeptLength(articles, |articles|);
    forall j | 0 <= j < |out| ensures out[j].id == j {
      KeptAtPosition(articles, |articles|, j);
      KeptMembers(articles, |articles|);
    }
  }
}
