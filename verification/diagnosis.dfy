/** The prediction server's post-processing (api/main.py): the class labels, the
    remediation decision table `generate_solution`, and the way the `/predict`
    handler turns the network's score vector into a `{class, confidence, solution}`
    record. The neural network itself is not modelled: its score vector is an input.
 */
module Diagnosis {
  import opened Wrappers

  /** The labels the network scores, in output order. */
  const CLASS_NAMES: seq<string> := ["Healthy", "Quick_wilt", "Slow_wilt"]

  /** Advice is only given when the confidence is strictly above this value. */
  const THRESHOLD: real := 0.70

  const UNCERTAIN_ADVICE: seq<string> := ["I am not sure about the diagnosis."]

  const SLOW_WILT_ADVICE: seq<string> := [
    "Ensure proper watering, keeping the soil moist but not waterlogged.",
    "Avoid over-fertilization as it can lead to stress on the plant.",
    "Improve soil aeration by regularly tilling around the plant.",
    "Use organic mulches to help retain soil moisture.",
    "Regularly monitor the plant's root health."
  ]

  const QUICK_WILT_ADVICE: seq<string> := [
    "Improve drainage in the soil to prevent waterlogging.",
    "Avoid excess watering, especially during the rainy season.",
    "Apply fungicides that target root rot if applicable.",
    "Remove any affected plants to prevent the spread of the disease.",
    "Ensure that the soil has a balanced pH level."
  ]

  const HEALTHY_ADVICE: seq<string> := [
    "The plant is in perfect condition. Keep up regular care."
  ]

  /** Reference table: the advice a confident diagnosis of each label earns. */
  const ADVICE: map<string, seq<string>> := map[
    "Healthy" := HEALTHY_ADVICE,
    "Quick_wilt" := QUICK_WILT_ADVICE,
    "Slow_wilt" := SLOW_WILT_ADVICE
  ]

  predicate Confident(confidence: real) {
    confidence > THRESHOLD
  }

  /** The decision table. `None` is the Python `None` that a confident
      diagnosis of a label outside CLASS_NAMES falls through to. */
  function GenerateSolution(predictedClass: string, confidence: real): (r: Option<seq<string>>)
    ensures !Confident(confidence) ==> r == Some(UNCERTAIN_ADVICE)
    ensures Confident(confidence) && predictedClass in ADVICE ==> r == Some(ADVICE[predictedClass])
    ensures r.None? <==> Confident(confidence) && predictedClass !in CLASS_NAMES
    ensures r.Some? ==> |r.value| > 0
  {
    if confidence > 0.70 then
      if predictedClass == "Slow_wilt" then Some(SLOW_WILT_ADVICE)
      else if predictedClass == "Quick_wilt" then Some(QUICK_WILT_ADVICE)
      else if predictedClass == "Healthy" then Some(HEALTHY_ADVICE)
      else None
    else
      Some(UNCERTAIN_ADVICE)
  }

  /** `k` is where `np.argmax` stops: a maximal score, and the first one. */
  predicate IsFirstMax(scores: seq<real>, k: int) {
    && 0 <= k < |scores|
    && (forall j :: 0 <= j < |scores| ==> scores[j] <= scores[k])
    && (forall j :: 0 <= j < k ==> scores[j] < scores[k])
  }

  /** `np.argmax` on a one-dimensional vector: a left-to-right scan that only
      moves on a strictly larger score, so ties go to the first position. */
  function ArgMax(scores: seq<real>): (k: nat)
    requires |scores| > 0
    ensures IsFirstMax(scores, k)
    decreases |scores|
  {
    if |scores| == 1 then 0
    else
      var front := scores[..|scores| - 1];
      var k := ArgMax(front);
      assert forall j :: 0 <= j < |front| ==> front[j] == scores[j];
      if scores[|scores| - 1] > scores[k] then |scores| - 1 else k
  }

  /** `np.max` on a one-dimensional vector. */
  function Max(scores: seq<real>): (m: real)
    requires |scores| > 0
    ensures m in scores
    ensures forall j :: 0 <= j < |scores| ==> scores[j] <= m
    decreases |scores|
  {
    if |scores| == 1 then scores[0]
    else
      var rest := Max(scores[1..]);
      assert forall j :: 1 <= j < |scores| ==> scores[j] == scores[1..][j - 1];
      if scores[0] > rest then scores[0] else rest
  }

  /** The record the `/predict` handler returns; `solution == None` is JSON `null`. */
  datatype Response = Response(cls: string, confidence: real, solution: Option<seq<string>>)

  /** The exceptions the handler's post-processing can raise. */
  datatype PredictError =
    | EmptyScores          // np.argmax of an empty vector raises ValueError
    | ClassIndexOutOfRange // CLASS_NAMES[k] with k >= 3 raises IndexError

  /** Post-processing of the `/predict` handler on the first row of the
      network's output. */
  function Predict(scores: seq<real>): (r: Result<Response, PredictError>)
    ensures |scores| == 0 ==> r == Failure(EmptyScores)
    ensures |scores| == |CLASS_NAMES| ==> r.Success?
    ensures r.Success? ==>
      exists k :: IsFirstMax(scores, k) && k < |CLASS_NAMES|
        && r.value.cls == CLASS_NAMES[k] && r.value.confidence == scores[k]
    ensures r.Success? ==> forall j :: 0 <= j < |scores| ==> scores[j] <= r.value.confidence
    ensures r.Success? ==> r.value.solution == GenerateSolution(r.value.cls, r.value.confidence)
    ensures r.Failure? && |scores| > 0 ==>
      r.error == ClassIndexOutOfRange
      && exists k :: IsFirstMax(scores, k) && k >= |CLASS_NAMES|
  {
    if |scores| == 0 then Failure(EmptyScores)
    else
      var k := ArgMax(scores);
      if k >= |CLASS_NAMES| then Failure(ClassIndexOutOfRange)
      else
        var predictedClass := CLASS_NAMES[k];
        var confidence := Max(scores);
        Success(Response(predictedClass, confidence, GenerateSolution(predictedClass, confidence)))
  }

  // ---------------------------------------------------------------------------
  // Properties of the decision table

  /** Below or at the threshold the label does not matter. */
  lemma UncertainWhateverTheClass(c1: string, c2: string, confidence: real)
    requires !Confident(confidence)
    ensures GenerateSolution(c1, confidence) == GenerateSolution(c2, confidence)
                                               == Some(["I am not sure about the diagnosis."])
  {
  }

  /** The threshold is strict: exactly 0.70 is still uncertain. */
  lemma ThresholdIsStrict(predictedClass: string)
    ensures GenerateSolution(predictedClass, 0.70) == Some(UNCERTAIN_ADVICE)
    ensures predictedClass in CLASS_NAMES ==>
      GenerateSolution(predictedClass, 0.71) != GenerateSolution(predictedClass, 0.70)
  {
  }

  /** Every label of CLASS_NAMES gets a non-empty list at every confidence. */
  lemma KnownClassAlwaysAdvised(predictedClass: string, confidence: real)
    requires predictedClass in CLASS_NAMES
    ensures GenerateSolution(predictedClass, confidence).Some?
    ensures |GenerateSolution(predictedClass, confidence).value| > 0
  {
  }

  /** The advice for each confident label, item by item, in order. */
  lemma ConfidentAdviceLists(confidence: real)
    requires Confident(confidence)
    ensures GenerateSolution("Slow_wilt", confidence).Some?
    ensures var a := GenerateSolution("Slow_wilt", confidence).value;
      |a| == 5
      && a[0] == "Ensure proper watering, keeping the soil moist but not waterlogged."
      && a[1] == "Avoid over-fertilization as it can lead to stress on the plant."
      && a[2] == "Improve soil aeration by regularly tilling around the plant."
      && a[3] == "Use organic mulches to help retain soil moisture."
      && a[4] == "Regularly monitor the plant's root health."
    ensures GenerateSolution("Quick_wilt", confidence).Some?
    ensures var a := GenerateSolution("Quick_wilt", confidence).value;
      |a| == 5
      && a[0] == "Improve drainage in the soil to prevent waterlogging."
      && a[1] == "Avoid excess watering, especially during the rainy season."
      && a[2] == "Apply fungicides that target root rot if applicable."
      && a[3] == "Remove any affected plants to prevent the spread of the disease."
      && a[4] == "Ensure that the soil has a balanced pH level."
    ensures GenerateSolution("Healthy", confidence)
         == Some(["The plant is in perfect condition. Keep up regular care."])
  {
  }

  /** A confident answer names its label: distinct labels earn distinct advice,
      and none of them is the uncertain message. */
  lemma ConfidentAdviceIdentifiesClass(c1: string, conf1: real, c2: string, conf2: real)
    requires c1 in CLASS_NAMES && c2 in CLASS_NAMES
    requires Confident(conf1)
    ensures GenerateSolution(c1, conf1) != Some(UNCERTAIN_ADVICE)
    ensures Confident(conf2) && GenerateSolution(c1, conf1) == GenerateSolution(c2, conf2)
            ==> c1 == c2
  {
  }

  /** An unknown label with high confidence yields no list at all. */
  lemma UnknownConfidentClassFallsThrough(predictedClass: string, confidence: real)
    requires predictedClass !in CLASS_NAMES && Confident(confidence)
    ensures GenerateSolution(predictedClass, confidence) == None
  {
  }

  // ---------------------------------------------------------------------------
  // Properties of the class selection

  /** At most one position is the first maximum, so `ArgMax` is determined by
      `IsFirstMax`. */
  lemma FirstMaxUnique(scores: seq<real>, k1: int, k2: int)
    requires IsFirstMax(scores, k1) && IsFirstMax(scores, k2)
    ensures k1 == k2
  {
    assert scores[k1] == scores[k2];
  }

  /** The reported confidence is the score at the chosen class. */
  lemma ConfidenceIsScoreOfClass(scores: seq<real>)
    requires |scores| > 0
    ensures Max(scores) == scores[ArgMax(scores)]
  {
  }

  /** `Predict` succeeds exactly when the first maximal score sits at a label
      position; in particular on every three-score vector. */
  lemma PredictSucceedsIff(scores: seq<real>)
    ensures Predict(scores).Success? <==>
      exists k :: IsFirstMax(scores, k) && k < |CLASS_NAMES|
  {
  }

  /** A successful response always carries a non-empty list: the `None`
      fall-through of the decision table cannot reach a client. */
  lemma PredictedSolutionPresent(scores: seq<real>)
    requires Predict(scores).Success?
    ensures Predict(scores).value.cls in CLASS_NAMES
    ensures Predict(scores).value.solution.Some?
    ensures |Predict(scores).value.solution.value| > 0
  {
  }
}
