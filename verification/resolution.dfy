/**
 Label resolution on the LSTM route: the index of the largest class probability,
 taken the way `np.argmax` takes it, looked up in the fixed list of sentiment labels.
 Probabilities are mathematical reals, not IEEE floats.
 */
module Resolution {
  import opened Results

  /** The ordered label list; position i names class i of the sequence model. */
  const Sentiment: seq<string> := ["negative", "neutral", "positive"]

  /** k is the first position holding the maximum of p. */
  predicate IsFirstMax(p: seq<real>, k: int) {
    && 0 <= k < |p|
    && (forall j :: 0 <= j < |p| ==> p[j] <= p[k])
    && (forall j :: 0 <= j < k ==> p[j] < p[k])
  }

  /**
   `np.argmax` on a non-empty vector: a left-to-right scan that moves to a new
   position only on a strictly larger value, so the first maximum wins.
   */
  function ArgMax(p: seq<real>): (k: nat)
    requires |p| > 0
    ensures IsFirstMax(p, k)
    decreases |p|
  {
    if |p| == 1 then 0
    else
      var k := ArgMax(p[..|p| - 1]);
      if p[|p| - 1] > p[k] then |p| - 1 else k
  }

  /** The first maximum is unique, so it characterises `ArgMax` completely. */
  lemma FirstMaxIsArgMax(p: seq<real>, k: int)
    requires |p| > 0
    ensures IsFirstMax(p, k) <==> k == ArgMax(p)
  {
  }

  /** Why resolution can fail: `np.argmax` of an empty vector, or an index past the label list. */
  datatype ResolveError = EmptyDistribution | LabelIndexOutOfRange(index: nat)

  /** `sentiment[np.argmax(p)]`. */
  function Resolve(p: seq<real>): (r: Result<string, ResolveError>)
    ensures |p| == 0 ==> r == Err(EmptyDistribution)
    ensures |p| > 0 ==> var k := ArgMax(p);
      if k < |Sentiment| then r.Ok? else r == Err(LabelIndexOutOfRange(k))
    ensures r.Ok? ==> r.value in Sentiment
    ensures r.Ok? ==> forall i :: 0 <= i < |Sentiment| && Sentiment[i] == r.value ==> IsFirstMax(p, i)
  {
    if |p| == 0 then Err(EmptyDistribution)
    else
      var k := ArgMax(p);
      if k < |Sentiment| then Ok(Sentiment[k]) else Err(LabelIndexOutOfRange(k))
  }

  /**
   For the three-class distribution the sequence model produces, resolution always
   succeeds, and it yields label i exactly when i is the first position of the maximum.
   */
  lemma ResolveThree(p: seq<real>, i: int)
    requires |p| == 3 && 0 <= i < 3
    ensures Resolve(p).Ok?
    ensures Resolve(p) == Ok(Sentiment[i]) <==> IsFirstMax(p, i)
  {
    FirstMaxIsArgMax(p, i);
    var k := ArgMax(p);
    assert k < 3;
    if Resolve(p) == Ok(Sentiment[i]) {
      assert Sentiment[k] == Sentiment[i];
      assert k == i;
    }
  }
}
