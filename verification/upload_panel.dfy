/** The upload panel of the browser front end
    (frontend/src/components/ImageUpload.js) as a reducer: its six pieces of
    component state form a `State`, each handler a case of `Step`, and the JSX
    conditions become visibility predicates.

    The network call is an abstract outcome carried by the submit event, and
    `URL.createObjectURL` is the opaque, injective `PreviewOf`.
 */
module UploadPanel {
  import opened Wrappers

  /** A browser `File` object, known only by its identity. */
  datatype File = File(id: nat)

  /** An object URL created for a file: a non-empty, hence truthy, string. */
  datatype Preview = ObjectUrl(file: File)

  function PreviewOf(f: File): Preview {
    ObjectUrl(f)
  }

  /** `response.data` as the handler reads it: a field missing from the body
      reads as `undefined` and is stored as such (`None`). */
  datatype Reply = Reply(cls: Option<string>, confidence: Option<real>, solution: Option<seq<string>>)

  /** How the `axios.post` call ends: resolved with a body, or rejected. */
  datatype Outcome = Answered(reply: Reply) | Failed

  datatype Event =
    | FileChosen(picked: seq<File>)          // input `change`; `e.target.files`
    | Drag(kind: string)                    // `handleDrag`; `e.type`
    | Dropped(transfer: Option<seq<File>>)     // `handleDrop`; `e.dataTransfer.files`, None when absent
    | Submitted(outcome: Outcome)           // `handleSubmit` and, when it posts, the call's outcome

  datatype State = State(
    selectedFile: Option<File>,
    previewImage: Option<Preview>,
    prediction: Option<string>,
    confidence: Option<real>,
    solution: Option<seq<string>>,
    dragActive: bool
  )

  /** Every `useState` initial value. */
  const Initial: State := State(None, None, None, None, None, false)

  // ---------------------------------------------------------------------------
  // Relations between states used by the contracts

  /** The preview shown is the preview of the file selected, and there is
      none without a file. */
  predicate Consistent(s: State) {
    s.previewImage == (if s.selectedFile.Some? then Some(PreviewOf(s.selectedFile.value)) else None)
  }

  /** The three fields filled from a response. */
  function ResultOf(s: State): Reply {
    Reply(s.prediction, s.confidence, s.solution)
  }

  predicate SameSelection(s: State, t: State) {
    t.selectedFile == s.selectedFile && t.previewImage == s.previewImage
  }

  predicate SameResult(s: State, t: State) {
    ResultOf(t) == ResultOf(s)
  }

  /** How an event moves the two-state drag indicator: `Some(b)` sets it to
      `b`, `None` leaves it alone. */
  function DragSignal(e: Event): Option<bool> {
    match e
    case Drag(kind) =>
      if kind == "dragenter" || kind == "dragover" then Some(true)
      else if kind == "dragleave" then Some(false)
      else None
    case Dropped(_) => Some(false)
    case _ => None
  }

  /** The file a list hands over: its first entry, when it has one. */
  function FirstFile(files: seq<File>): Option<File> {
    if |files| > 0 then Some(files[0]) else None
  }

  // ---------------------------------------------------------------------------
  // Handlers

  /** Select `file` (or clear the selection) together with its preview. */
  function Select(s: State, file: Option<File>): (t: State)
    ensures t.selectedFile == file && Consistent(t)
    ensures SameResult(s, t) && t.dragActive == s.dragActive
  {
    match file
    case Some(f) => s.(selectedFile := Some(f), previewImage := Some(PreviewOf(f)))
    case None => s.(selectedFile := None, previewImage := None)
  }

  /** The file `handleSubmit` posts: the selected one, and nothing when no
      file is selected. */
  function Request(s: State, e: Event): Option<File>
  {
    if e.Submitted? then s.selectedFile else None
  }

  /** One handler run to completion. */
  function Step(s: State, e: Event): (t: State)
    // the preview always belongs to the selected file
    ensures Consistent(s) ==> Consistent(t)
    ensures e.FileChosen? || (e.Dropped? && e.transfer.Some? && |e.transfer.value| > 0) ==>
      Consistent(t)
    // the drag indicator follows the last drag signal
    ensures t.dragActive == DragSignal(e).GetOr(s.dragActive)
    // drag events change nothing else
    ensures e.Drag? ==> t == s.(dragActive := t.dragActive)
    // choosing a file never touches the result of an earlier submission
    ensures e.FileChosen? || e.Dropped? ==> SameResult(s, t)
    ensures e.FileChosen? ==> t.selectedFile == FirstFile(e.picked)
    ensures e.Dropped? && e.transfer.Some? && |e.transfer.value| > 0 ==>
      t.selectedFile == Some(e.transfer.value[0])
    ensures e.Dropped? && (e.transfer.None? || |e.transfer.value| == 0) ==> SameSelection(s, t)
    // submitting never touches the selection
    ensures e.Submitted? ==> SameSelection(s, t)
    ensures e.Submitted? && (s.selectedFile.None? || e.outcome.Failed?) ==> t == s
    ensures e.Submitted? && s.selectedFile.Some? && e.outcome.Answered? ==>
      ResultOf(t) == e.outcome.reply && t == s.(prediction := t.prediction,
                                                confidence := t.confidence,
                                                solution := t.solution)
  {
    match e
    case FileChosen(files) =>
      Select(s, FirstFile(files))
    case Drag(kind) =>
      if kind == "dragenter" || kind == "dragover" then s.(dragActive := true)
      else if kind == "dragleave" then s.(dragActive := false)
      else s
    case Dropped(files) =>
      var s' := s.(dragActive := false);
      if files.Some? && |files.value| > 0 then Select(s', Some(files.value[0])) else s'
    case Submitted(outcome) =>
      if s.selectedFile.None? then s
      else
        match outcome
        case Answered(reply) =>
          s.(prediction := reply.cls, confidence := reply.confidence, solution := reply.solution)
        case Failed => s
  }

  /** The state after the events of `evs`, delivered in order. */
  function Run(s: State, evs: seq<Event>): State
    decreases |evs|
  {
    if |evs| == 0 then s else Step(Run(s, evs[..|evs| - 1]), evs[|evs| - 1])
  }

  // ---------------------------------------------------------------------------
  // Rendering

  /** Text of the drop zone. */
  function Prompt(s: State): string
  {
    if s.dragActive then "Drag the image here"
    else "Drag and drop an image here, or click to select an image"
  }

  /** JavaScript truthiness of the stored class: `null`, `undefined` and `""`
      are falsy. */
  predicate Truthy(v: Option<string>) {
    v.Some? && |v.value| > 0
  }

  /** The preview column (`previewImage &&`). */
  predicate PanelVisible(s: State) {
    s.previewImage.Some?
  }

  /** The result column, nested inside the preview column (`prediction &&`). */
  predicate ResultVisible(s: State) {
    PanelVisible(s) && Truthy(s.prediction)
  }

  /** The solution heading and list (`solution &&`); any array is truthy, the
      empty one included. */
  predicate SolutionVisible(s: State) {
    ResultVisible(s) && s.solution.Some?
  }

  /** The bullet points rendered, in order. */
  function ListedPoints(s: State): seq<string>
  {
    if SolutionVisible(s) then s.solution.value else []
  }

  // ---------------------------------------------------------------------------
  // Properties of runs

  /** From the initial state, a file and its preview are present together
      after any sequence of events. */
  lemma {:induction false} RunKeepsConsistent(s: State, evs: seq<Event>)
    requires Consistent(s)
    ensures Consistent(Run(s, evs))
    ensures Run(s, evs).selectedFile.None? <==> Run(s, evs).previewImage.None?
    decreases |evs|
  {
    if |evs| > 0 {
      RunKeepsConsistent(s, evs[..|evs| - 1]);
    }
  }

  lemma {:induction false} InitialConsistent(evs: seq<Event>)
    ensures Consistent(Initial)
    ensures Run(Initial, evs).selectedFile.None? <==> Run(Initial, evs).previewImage.None?
    ensures PanelVisible(Run(Initial, evs)) <==> Run(Initial, evs).selectedFile.Some?
  {
    RunKeepsConsistent(Initial, evs);
  }

  /** Event `i` of the run is an answered submission that was actually
      posted: a file was selected when it was delivered. */
  predicate AppliesAnswer(s: State, evs: seq<Event>, i: int) {
    && 0 <= i < |evs|
    && evs[i].Submitted? && evs[i].outcome.Answered?
    && Request(Run(s, evs[..i]), evs[i]).Some?
  }

  /** A submit changes the state only when it posts a file, and it posts the
      selected one. */
  lemma SubmitEffectNeedsRequest(s: State, e: Event)
    ensures !e.Submitted? ==> Request(s, e).None?
    ensures e.Submitted? && Request(s, e).None? ==> Step(s, e) == s
    ensures e.Submitted? && Step(s, e) != s ==> Request(s, e).Some? && Request(s, e) == s.selectedFile
    ensures Request(s, e).Some? ==> e.Submitted? && Request(s, e) == s.selectedFile
  {
  }

  /** Whatever result is stored came, as a whole, from one answered and posted
      submission of the run, or was already there. */
  lemma {:induction false} ResultComesFromOneReply(s: State, evs: seq<Event>)
    ensures ResultOf(Run(s, evs)) == ResultOf(s)
      || exists i :: AppliesAnswer(s, evs, i) && evs[i].outcome.reply == ResultOf(Run(s, evs))
    decreases |evs|
  {
    if |evs| > 0 {
      var n := |evs| - 1;
      var front := evs[..n];
      assert evs[..n] == front;
      ResultComesFromOneReply(s, front);
      var before := Run(s, front);
      if ResultOf(Run(s, evs)) == ResultOf(before) {
        if ResultOf(before) != ResultOf(s) {
          var i :| AppliesAnswer(s, front, i) && front[i].outcome.reply == ResultOf(before);
          assert front[..i] == evs[..i];
          assert AppliesAnswer(s, evs, i);
        }
      } else {
        assert AppliesAnswer(s, evs, n);
      }
    }
  }

  /** The last posted answer of a run wins: each answer overwrites all three
      result fields, and nothing else touches them. */
  lemma {:induction false} LastAnswerWins(s: State, evs: seq<Event>, i: int)
    requires AppliesAnswer(s, evs, i)
    requires forall j :: i < j < |evs| ==> !AppliesAnswer(s, evs, j)
    ensures ResultOf(Run(s, evs)) == evs[i].outcome.reply
    decreases |evs|
  {
    var n := |evs| - 1;
    var front := evs[..n];
    assert evs[..n] == front;
    if i < n {
      assert front[..i] == evs[..i];
      assert AppliesAnswer(s, front, i);
      forall j | i < j < |front|
        ensures !AppliesAnswer(s, front, j)
      {
        assert front[..j] == evs[..j];
        assert !AppliesAnswer(s, evs, j);
      }
      LastAnswerWins(s, front, i);
      assert !AppliesAnswer(s, evs, n);
    }
  }

  /** No result is ever shown from the initial state without an answered
      submission. */
  lemma {:induction false} NoResultWithoutAnswer(evs: seq<Event>)
    requires forall i :: 0 <= i < |evs| ==> !(evs[i].Submitted? && evs[i].outcome.Answered?)
    ensures ResultOf(Run(Initial, evs)) == Reply(None, None, None)
    ensures !ResultVisible(Run(Initial, evs))
  {
    ResultComesFromOneReply(Initial, evs);
  }

  /** No drag signal among the events after position `i`. */
  predicate QuietAfter(evs: seq<Event>, i: int) {
    forall j :: 0 <= j < |evs| && i < j ==> DragSignal(evs[j]).None?
  }

  /** The last drag signal of `evs` turns the indicator on, or there is none
      and `before` was on. */
  predicate LastSignalOn(before: bool, evs: seq<Event>) {
    || (exists i :: 0 <= i < |evs| && DragSignal(evs[i]) == Some(true) && QuietAfter(evs, i))
    || (QuietAfter(evs, -1) && before)
  }

  /** The drag indicator is on exactly when the last drag signal of the run
      turned it on, or when there was none and it was on before. */
  lemma {:induction false} DragActiveIsLastSignal(s: State, evs: seq<Event>)
    ensures Run(s, evs).dragActive <==> LastSignalOn(s.dragActive, evs)
    decreases |evs|
  {
    if |evs| > 0 {
      var n := |evs| - 1;
      var front := evs[..n];
      DragActiveIsLastSignal(s, front);
      assert forall j :: 0 <= j < n ==> front[j] == evs[j];
      match DragSignal(evs[n])
      case Some(b) =>
        if b {
          assert QuietAfter(evs, n);
        } else {
          assert !QuietAfter(evs, -1);
          forall i | 0 <= i < n
            ensures !QuietAfter(evs, i)
          {
            assert DragSignal(evs[n]).Some?;
          }
        }
      case None =>
        if Run(s, evs).dragActive {
          if i :| 0 <= i < n && DragSignal(front[i]) == Some(true) && QuietAfter(front, i) {
            assert QuietAfter(evs, i);
          } else {
            assert QuietAfter(evs, -1);
          }
        } else {
          forall i | 0 <= i < |evs| && DragSignal(evs[i]) == Some(true)
            ensures !QuietAfter(evs, i)
          {
            if i < n {
              assert !QuietAfter(front, i);
            }
          }
          if s.dragActive {
            assert !QuietAfter(front, -1);
          }
        }
    }
  }

  // ---------------------------------------------------------------------------
  // Properties of single steps and of rendering

  /** On the modelled state, with previews identified by their file,
      delivering the same event twice in a row ends where one delivery does. */
  lemma StepIdempotent(s: State, e: Event)
    ensures Step(Step(s, e), e) == Step(s, e)
  {
  }

  /** Drag events only ever move the indicator: over any run of them the
      selection and the result stay put. */
  lemma {:induction false} DragRunChangesOnlyIndicator(s: State, evs: seq<Event>)
    requires forall i :: 0 <= i < |evs| ==> evs[i].Drag?
    ensures Run(s, evs) == s.(dragActive := Run(s, evs).dragActive)
    decreases |evs|
  {
    if |evs| > 0 {
      DragRunChangesOnlyIndicator(s, evs[..|evs| - 1]);
    }
  }

  /** A drop always ends hovering, and an empty or absent list changes
      nothing else. */
  lemma EmptyDropOnlyEndsHover(s: State, files: Option<seq<File>>)
    requires files.None? || |files.value| == 0
    ensures Step(s, Dropped(files)) == s.(dragActive := false)
  {
  }

  /** An earlier result outlives a new file choice and is shown beside the new
      preview; clearing the picker hides it without erasing it. */
  lemma ResultOutlivesNewFile(s: State, f: File)
    requires Truthy(s.prediction)
    ensures ResultVisible(Step(s, FileChosen([f])))
    ensures Step(s, FileChosen([f])).prediction == s.prediction
    ensures !PanelVisible(Step(s, FileChosen([])))
    ensures Step(s, FileChosen([])).prediction == s.prediction
  {
  }

  /** An empty solution array still shows the heading, with no bullet. */
  lemma EmptySolutionStillRendered(s: State)
    requires PanelVisible(s) && Truthy(s.prediction) && s.solution == Some([])
    ensures SolutionVisible(s)
    ensures ListedPoints(s) == []
  {
  }

  /** The drop zone shows the hover text exactly when the last drag signal of
      the run was dragenter/dragover, or there was none and it showed before. */
  lemma {:induction false} PromptFollowsLastSignal(s: State, evs: seq<Event>)
    ensures Prompt(Run(s, evs)) == "Drag the image here" <==>
      LastSignalOn(Prompt(s) == "Drag the image here", evs)
    ensures Prompt(Run(s, evs)) == "Drag the image here"
         || Prompt(Run(s, evs)) == "Drag and drop an image here, or click to select an image"
  {
    DragActiveIsLastSignal(s, evs);
  }

  /** The bullets on screen are the solution of the last posted answer, in
      order; a `null` solution lists none. From a consistent state, the list
      shows exactly when a file is selected and that answer has a truthy class
      and a solution array. */
  lemma {:induction false} ListedPointsOfLastAnswer(s: State, evs: seq<Event>, i: int)
    requires AppliesAnswer(s, evs, i)
    requires forall j :: i < j < |evs| ==> !AppliesAnswer(s, evs, j)
    ensures var reply := evs[i].outcome.reply;
      && (SolutionVisible(Run(s, evs)) ==> reply.solution == Some(ListedPoints(Run(s, evs))))
      && (reply.solution.None? || !Truthy(reply.cls) ==> ListedPoints(Run(s, evs)) == [])
      && (Consistent(s) ==>
            (SolutionVisible(Run(s, evs)) <==>
               Run(s, evs).selectedFile.Some? && Truthy(reply.cls) && reply.solution.Some?))
  {
    LastAnswerWins(s, evs, i);
    if Consistent(s) {
      RunKeepsConsistent(s, evs);
    }
  }
}
