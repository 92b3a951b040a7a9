/**
 The two POST handlers. The frozen artifacts are parameters: `classify` stands for
 `neural_network_feature.transform` followed by `neural_network_model.predict(...)[0]`,
 and `score` for `texts_to_sequences`, `pad_sequences` and `lstm_model.predict(...)[0]`.
 Both are applied to the cleansed text only.
 */
module Routes {
  import opened Results
  import Cleansing
  import Resolution
  import opened Envelopes

  const NeuralNetworkDescription: string := "Result of Sentiment Analysis using Neural Network"
  const LstmDescription: string := "Result of Sentiment Analysis using LSTM"

  /**
   Why a handler raises instead of answering: a missing `text` field reaches
   `cleansing(None)`, which has no `lower`; the LSTM route can also fail to resolve.
   */
  datatype RouteError = TextMissing | Unresolved(cause: Resolution.ResolveError)

  /** `/neural_network`: the classifier's label for the cleansed text, returned as is. */
  function NeuralNetwork<L>(field: Option<string>, classify: string -> L): (r: Result<Envelope<L>, RouteError>)
    ensures field.None? <==> r == Err(TextMissing)
    ensures field.Some? ==> r.Ok?
    ensures r.Ok? ==> r.value.statusCode == StatusOk && r.value.description == NeuralNetworkDescription
    ensures r.Ok? ==> r.value.data.text == Cleansing.Cleanse(field.value)
    ensures r.Ok? ==> r.value.data.sentiment == classify(r.value.data.text)
  {
    match field
    case None => Err(TextMissing)
    case Some(raw) =>
      var text := Cleansing.Cleanse(raw);
      Ok(MakeEnvelope(raw, classify(text), NeuralNetworkDescription))
  }

  /** `/lstm`: the label at the first maximum of the model's distribution over the cleansed text. */
  function Lstm(field: Option<string>, score: string -> seq<real>): (r: Result<Envelope<string>, RouteError>)
    ensures field.None? <==> r == Err(TextMissing)
    ensures field.Some? && |score(Cleansing.Cleanse(field.value))| == 3 ==> r.Ok?
    ensures r.Ok? ==> r.value.statusCode == StatusOk && r.value.description == LstmDescription
    ensures r.Ok? ==> r.value.data.text == Cleansing.Cleanse(field.value)
    ensures r.Ok? ==> r.value.data.sentiment in Resolution.Sentiment
    ensures r.Ok? ==> Resolution.Resolve(score(r.value.data.text)) == Ok(r.value.data.sentiment)
    ensures field.Some? ==>
      match Resolution.Resolve(score(Cleansing.Cleanse(field.value)))
      case Ok(v) => r.Ok? && r.value.data.sentiment == v
      case Err(c) => r == Err(Unresolved(c))
  {
    match field
    case None => Err(TextMissing)
    case Some(raw) =>
      var text := Cleansing.Cleanse(raw);
      match Resolution.Resolve(score(text))
      case Err(cause) => Err(Unresolved(cause))
      case Ok(verdict) => Ok(MakeEnvelope(raw, verdict, LstmDescription))
  }

  /**
   On a three-class distribution the LSTM route answers with label i exactly when
   class i is the first maximum of the distribution over the cleansed text.
   */
  lemma LstmLabel(raw: string, score: string -> seq<real>, i: int)
    requires |score(Cleansing.Cleanse(raw))| == 3 && 0 <= i < 3
    ensures Lstm(Some(raw), score).Ok?
    ensures Lstm(Some(raw), score).value.data.sentiment == Resolution.Sentiment[i]
        <==> Resolution.IsFirstMax(score(Cleansing.Cleanse(raw)), i)
  {
    Resolution.ResolveThree(score(Cleansing.Cleanse(raw)), i);
  }

  /**
   The two routes agree on everything but the description and the label: whenever
   the LSTM route answers, the neural-network route answers too, and both give
   status 200 and echo the same cleansed text, whatever label each model chose.
   */
  lemma RoutesAgree<L>(raw: string, classify: string -> L, score: string -> seq<real>)
    requires Lstm(Some(raw), score).Ok?
    ensures NeuralNetwork(Some(raw), classify).Ok?
    ensures NeuralNetwork(Some(raw), classify).value.statusCode == Lstm(Some(raw), score).value.statusCode
    ensures NeuralNetwork(Some(raw), classify).value.data.text == Lstm(Some(raw), score).value.data.text
  {
  }

  /**
   Inputs that cleanse alike are answered alike: the models never see case or
   punctuation. In particular, sending back the echoed text gets the same answer.
   */
  lemma AnswerDependsOnCleansedText<L>(a: string, b: string, classify: string -> L, score: string -> seq<real>)
    requires Cleansing.Cleanse(a) == Cleansing.Cleanse(b)
    ensures NeuralNetwork(Some(a), classify) == NeuralNetwork(Some(b), classify)
    ensures Lstm(Some(a), score) == Lstm(Some(b), score)
  {
  }

  /**
   Resubmitting the cleansed text, which is what an answer echoes, reproduces the
   response, and so does a failure to resolve.
   */
  lemma ResubmitEcho(raw: string, score: string -> seq<real>)
    ensures Lstm(Some(Cleansing.Cleanse(raw)), score) == Lstm(Some(raw), score)
  {
    Cleansing.CleanseIdempotent(raw);
  }
}
