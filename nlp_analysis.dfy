/**
  The analysis of one article text: a thresholded sentiment from the
  classifier and the PERSON/ORG/GPE entities from the recognizer
  (perform_nlp_analysis in app.py).
 */
module NlpAnalysis {
  import opened Wrappers
  import opened NewsTypes

  /** Only this many leading characters reach the classifier. */
  const MaxClassifierInput: nat := 512

  /** Below this score the classifier's own label is replaced by NEUTRAL. */
  const ConfidenceThreshold: real := 0.95

  /** The entity categories that are kept, in the order the result dict lists them. */
  const Categories: seq<string> := ["PERSON", "ORG", "GPE"]

  /** The result dict before any entity is added: every category with an empty list. */
  const NoEntities: map<string, seq<string>> := map["PERSON" := [], "ORG" := [], "GPE" := []]

  /** `text[:512]`: the first min(512, |text|) characters. */
  function Truncate(text: string): (t: string)
    ensures |t| == if |text| < MaxClassifierInput then |text| else MaxClassifierInput
    ensures t == text[..|t|]
  {
    if |text| <= MaxClassifierInput then text else text[..MaxClassifierInput]
  }

  /**
    The sentiment reported for a text: UNKNOWN/0.0 when the classifier
    raises, otherwise the classifier's score with its label kept only at
    high confidence.
   */
  function SentimentOf(classify: Classifier, text: string): (s: Sentiment)
    ensures classify(Truncate(text)).None? ==> s == Sentiment("UNKNOWN", 0.0)
    ensures classify(Truncate(text)).Some? ==> s.score == classify(Truncate(text)).value.score
    ensures (classify(Truncate(text)).Some? && classify(Truncate(text)).value.score < ConfidenceThreshold)
              ==> s.polarity == "NEUTRAL"
    ensures (classify(Truncate(text)).Some? && classify(Truncate(text)).value.score >= ConfidenceThreshold)
              ==> s == classify(Truncate(text)).value
  {
    match classify(Truncate(text))
    case None => Sentiment("UNKNOWN", 0.0)
    case Some(raw) => if raw.score < ConfidenceThreshold then raw.(polarity := "NEUTRAL") else raw
  }

  /** Characters past the 512th can never change the sentiment. */
  lemma SentimentIgnoresTail(classify: Classifier, text: string, tail: string)
    requires |text| >= MaxClassifierInput
    ensures SentimentOf(classify, text + tail) == SentimentOf(classify, text)
  {
    assert Truncate(text + tail) == Truncate(text);
  }

  /** The texts of the entities of type `kind`, in the recognizer's order, duplicates kept. */
  function TextsWithLabel(ents: seq<Entity>, kind: string): (texts: seq<string>)
  {
    if ents == [] then []
    else
      var last := ents[|ents| - 1];
      var front := ents[..|ents| - 1];
      assert ents == front + [last];
      TextsWithLabel(front, kind) + (if last.kind == kind then [last.text] else [])
  }

  /** A text is listed under `kind` exactly when some entity of that type carries it. */
  lemma {:induction false} TextsWithLabelMembers(ents: seq<Entity>, kind: string)
    ensures forall x :: x in TextsWithLabel(ents, kind) <==> exists e :: e in ents && e.kind == kind && e.text == x
  {
    if ents != [] {
      var front := ents[..|ents| - 1];
      TextsWithLabelMembers(front, kind);
      assert ents == front + [ents[|ents| - 1]];
    }
  }

  ghost predicate NoDuplicates(s: seq<string>) {
    forall i, j :: 0 <= i < j < |s| ==> s[i] != s[j]
  }

  /**
    `list(set(xs))`: the distinct members of `xs`. Python leaves their
    order unspecified, so only membership and distinctness are promised.
   */
  function Distinct(xs: seq<string>): (ys: seq<string>)
    ensures NoDuplicates(ys)
    ensures forall x :: x in ys <==> x in xs
  {
    if xs == [] then []
    else
      var rest := Distinct(xs[1..]);
      if xs[0] in rest then rest else [xs[0]] + rest
  }

  /**
    The entity dict is right for the recognizer's output `ents`: exactly the
    three category keys, and each list holds, once each, the texts of the
    entities of that category.
   */
  ghost predicate EntitiesCorrect(m: map<string, seq<string>>, ents: seq<Entity>) {
    && m.Keys == {"PERSON", "ORG", "GPE"}
    && forall c :: c in m ==>
         && NoDuplicates(m[c])
         && forall x :: x in m[c] <==> exists e :: e in ents && e.kind == c && e.text == x
  }

  /** The recognizer loaded and raises on `text`; the exception leaves the analysis. */
  predicate NerRaises(ner: Option<Recognizer>, text: string) {
    ner.Some? && ner.value(text).Err?
  }

  /** The entities the recognizer yields for `text`; none when it did not load. */
  function NerEntities(ner: Option<Recognizer>, text: string): seq<Entity>
    requires !NerRaises(ner, text)
  {
    if ner.None? then [] else ner.value(text).value
  }

  /** `a` is what the analysis of `text` returns when it returns normally. */
  ghost predicate AnalysisCorrect(classify: Classifier, ner: Option<Recognizer>, text: string, a: Analysis) {
    && !NerRaises(ner, text)
    && a.sentiment == SentimentOf(classify, text)
    && EntitiesCorrect(a.entities, NerEntities(ner, text))
  }

  /** When the recognizer finds nothing (or did not load), all three lists are empty. */
  lemma NoEntitiesFound(m: map<string, seq<string>>)
    requires EntitiesCorrect(m, [])
    ensures m == NoEntities
  {
    forall c | c in m ensures m[c] == [] {
      HeadIsMember(m[c]);
    }
  }

  lemma HeadIsMember(s: seq<string>)
    ensures s == [] || s[0] in s
  {
  }

  /**
    perform_nlp_analysis: the sentiment of the first 512 characters with the
    confidence override, and the deduplicated PERSON/ORG/GPE entities of the
    whole text. A classifier exception is absorbed; a recognizer exception
    is not.
   */
  method PerformNlpAnalysis(text: string, classify: Classifier, ner: Option<Recognizer>)
    returns (r: Result<Analysis, string>)
    ensures r.Err? <==> NerRaises(ner, text)
    ensures r.Err? ==> r.error == ner.value(text).error
    ensures r.Ok? ==> AnalysisCorrect(classify, ner, text, r.value)
  {
    var sentiment: Sentiment;
    var raw := classify(Truncate(text));
    if raw.Some? {
      sentiment := raw.value;
      if sentiment.score < ConfidenceThreshold {
        sentiment := sentiment.(polarity := "NEUTRAL");
      }
    } else {
      sentiment := Sentiment("UNKNOWN", 0.0);
    }

    var entities := NoEntities;
    if ner.Some? {
      var doc := ner.value(text);
      if doc.Err? {
        return Err(doc.error);
      }
      entities := GroupEntities(doc.value);
    }
    return Ok(Analysis(sentiment, entities));
  }

  /**
    The first loop of the entity half of perform_nlp_analysis: append the
    text of each entity whose type is a key of the dict to that key's list.
   */
  method CollectEntities(ents: seq<Entity>) returns (entities: map<string, seq<string>>)
    ensures entities.Keys == {"PERSON", "ORG", "GPE"}
    ensures forall c :: c in entities ==> entities[c] == TextsWithLabel(ents, c)
  {
    entities := NoEntities;
    for k := 0 to |ents|
      invariant entities.Keys == {"PERSON", "ORG", "GPE"}
      invariant forall c :: c in entities ==> entities[c] == TextsWithLabel(ents[..k], c)
    {
      var ent := ents[k];
      assert ents[..k + 1][..k] == ents[..k];
      if ent.kind in entities {
        entities := entities[ent.kind := entities[ent.kind] + [ent.text]];
      }
    }
    assert ents[..|ents|] == ents;
  }

  /**
    The entity half of perform_nlp_analysis once the recognizer has
    returned: collect the PERSON/ORG/GPE texts, then replace every list by
    its distinct members.
   */
  method GroupEntities(ents: seq<Entity>) returns (entities: map<string, seq<string>>)
    ensures EntitiesCorrect(entities, ents)
  {
    entities := CollectEntities(ents);
    for j := 0 to |Categories|
      invariant entities.Keys == {"PERSON", "ORG", "GPE"}
      invariant forall i :: 0 <= i < j ==> entities[Categories[i]] == Distinct(TextsWithLabel(ents, Categories[i]))
      invariant forall i :: j <= i < |Categories| ==> entities[Categories[i]] == TextsWithLabel(ents, Categories[i])
    {
      var key := Categories[j];
      entities := entities[key := Distinct(entities[key])];
    }
    forall c | c in entities
      ensures NoDuplicates(entities[c])
      ensures forall x :: x in entities[c] <==> exists e :: e in ents && e.kind == c && e.text == x
    {
      assert c == Categories[0] || c == Categories[1] || c == Categories[2];
      TextsWithLabelMembers(ents, c);
    }
  }
}
