/** The two halves together: the record the `/predict` handler returns, as the
    upload panel reads it from the response body.
 */
module Pipeline {
  import opened Wrappers
  import Diagnosis
  import UploadPanel

  /** The JSON body of a server response as the panel sees it: every field
      present, `solution` possibly `null`. */
  function ToReply(r: Diagnosis.Response): UploadPanel.Reply
  {
    UploadPanel.Reply(Some(r.cls), Some(r.confidence), r.solution)
  }

  /** A server answer to a three-score vector, delivered to a panel that has a
      file selected, shows the predicted label, its confidence and the whole
      advice list, in order. */
  lemma AnswerIsShown(s: UploadPanel.State, scores: seq<real>)
    requires UploadPanel.Consistent(s) && s.selectedFile.Some?
    requires |scores| == |Diagnosis.CLASS_NAMES|
    ensures Diagnosis.Predict(scores).Success?
    ensures var resp := Diagnosis.Predict(scores).value;
      var t := UploadPanel.Step(s, UploadPanel.Submitted(UploadPanel.Answered(ToReply(resp))));
      && UploadPanel.SolutionVisible(t)
      && t.prediction == Some(resp.cls)
      && t.confidence == Some(resp.confidence)
      && resp.solution.Some?
      && UploadPanel.ListedPoints(t) == resp.solution.value
      && |UploadPanel.ListedPoints(t)| > 0
  {
    Diagnosis.PredictedSolutionPresent(scores);
  }
}
