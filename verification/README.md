# Black pepper disease classifier — verified model of its decision logic

The system classifies photographs of black pepper leaves as `Healthy`, `Quick_wilt` or
`Slow_wilt`. Its two parts are each modelled as a Dafny module:

- **Server post-processing** (`api/main.py`), module `Diagnosis`. The network's score
  vector is an input. `ArgMax` and `Max` model `np.argmax` and `np.max`, with ties going to
  the first position. `GenerateSolution` is the remediation decision table. `Predict`
  assembles the `{class, confidence, solution}` record, or raises one of the two errors its
  post-processing can hit.
- **Upload panel** (`frontend/src/components/ImageUpload.js`), module `UploadPanel`. The
  component's six state variables form an immutable `State`. Every handler is one case of
  the pure reducer `Step` over an `Event`:
  - file-picker change;
  - a drag event with its raw type string;
  - a drop, with its file list absent or present;
  - a submit that carries the network call's outcome.

  `Run` folds `Step` over an event sequence. The JSX conditions become the predicates
  `PanelVisible`, `ResultVisible` and `SolutionVisible`.
- Module `Pipeline` feeds the server's record into the panel. Module `Wrappers` holds
  `Option`, which models Python `None` and JavaScript `null`/`undefined`, and `Result`,
  which models a raised exception.

Two behaviours of the code are easy to miss:

- An empty solution array is truthy in JavaScript. So the panel still renders the
  "Possible Solution" heading, over an empty list (`EmptySolutionStillRendered`).
- A 2xx response whose body lacks `class`, `confidence` or `solution` does not go down the
  error path. The handler stores `undefined` in those fields. That is why `Reply` fields
  are `Option`s and a successful submit copies them as they are.

## Model

| member | source | states |
|---|---|---|
| Diagnosis.GenerateSolution | api/main.py:35-61 | Not confident (≤ 0.70): the uncertain message, whatever the class. Confident and the class in the advice table: exactly that class's list. No list (Python `None`) exactly when confident and the class is outside CLASS_NAMES. Every list returned is non-empty. |
| Diagnosis.ArgMax | api/main.py:72 | The index returned is a maximal score and the first maximal one (np.argmax tie-breaking). |
| Diagnosis.Max | api/main.py:73 | The value returned occurs in the vector and bounds every score from above. |
| Diagnosis.Predict | api/main.py:72-82 | An empty vector raises. A 3-score vector always succeeds. On success the class is CLASS_NAMES at the first maximal position, the confidence is the score there and bounds every score, and the solution is the decision table applied to the record's own class and confidence. Any other failure means the first maximum lies past the last class. |
| Diagnosis.UncertainWhateverTheClass | api/main.py:58-61 | At or below the threshold, any two classes get the same answer: the single uncertain message. |
| Diagnosis.ThresholdIsStrict | api/main.py:37 | At exactly 0.70 the answer is uncertain. For a known class, 0.71 gives a different answer. |
| Diagnosis.KnownClassAlwaysAdvised | api/main.py:25-61 | A class of CLASS_NAMES gets a present, non-empty list at every confidence. |
| Diagnosis.ConfidentAdviceLists | api/main.py:38-57 | When confident: Slow_wilt and Quick_wilt each get their five items in the listed order; Healthy gets its single item. |
| Diagnosis.ConfidentAdviceIdentifiesClass | api/main.py:37-61 | A confident answer for a known class is never the uncertain message. Two confident answers that are equal come from the same class. |
| Diagnosis.UnknownConfidentClassFallsThrough | api/main.py:37-58 | A confident diagnosis of a class outside CLASS_NAMES yields no list. |
| Diagnosis.FirstMaxUnique | api/main.py:72 | At most one position is the first maximal score, so the argmax is determined by the vector. |
| Diagnosis.ConfidenceIsScoreOfClass | api/main.py:72-73 | The confidence np.max reports is the score at the np.argmax position. |
| Diagnosis.PredictSucceedsIff | api/main.py:72 | Predict succeeds if and only if the first maximal score sits at a class position. |
| Diagnosis.PredictedSolutionPresent | api/main.py:72-82 | A successful response names a class of CLASS_NAMES and carries a present, non-empty solution, so the `None` fall-through never reaches a client. |
| UploadPanel.Select | frontend/src/components/ImageUpload.js:19-25 | Selecting a file, or clearing the selection, sets the file and the preview that belongs to it. The result fields and the drag flag are untouched. |
| UploadPanel.SubmitEffectNeedsRequest | frontend/src/components/ImageUpload.js:32-41 | Only a submit posts a file, and it posts the selected one. A submit that posts nothing leaves the state unchanged. A submit that changes the state did post the selected file. |
| UploadPanel.Step | frontend/src/components/ImageUpload.js:15-75 | Preview/file consistency is preserved. A picker change, or a drop with files, always leaves the preview belonging to the new selection. The drag flag: true after dragenter/dragover, false after dragleave and after a drop, unchanged otherwise. Drag events change nothing else. Picker and drop never touch the result fields. The picker selects the first file or clears the selection. A drop with files selects the first one; an absent or empty drop keeps the selection. A submit never touches the selection. A submit with no file or a failed call changes nothing. An answered submit replaces all three result fields from one reply and changes nothing else. |
| UploadPanel.RunKeepsConsistent | frontend/src/components/ImageUpload.js:15-75 | Over any event sequence, a consistent state stays consistent, so the file and the preview are null together. |
| UploadPanel.InitialConsistent | frontend/src/components/ImageUpload.js:6-11 | The initial all-null state is consistent. After any run from it, file and preview are null together, and the preview column shows exactly when a file is selected. |
| UploadPanel.ResultComesFromOneReply | frontend/src/components/ImageUpload.js:46-48 | After any run, the three result fields are either what they were before it or, as a whole, the reply of one answered submission of the run that posted a file. |
| UploadPanel.LastAnswerWins | frontend/src/components/ImageUpload.js:46-48 | After any run, the three result fields are the reply of the last answered submission that posted a file. |
| UploadPanel.NoResultWithoutAnswer | frontend/src/components/ImageUpload.js:8-10 | Without an answered submission, a run from the initial state keeps all three result fields null, so no result is shown. |
| UploadPanel.DragActiveIsLastSignal | frontend/src/components/ImageUpload.js:58-68 | After any run, the drag flag is on if and only if the last drag-relevant event was dragenter/dragover, or there was none and the flag was on before. |
| UploadPanel.StepIdempotent | frontend/src/components/ImageUpload.js:15-75 | On the modelled state, with previews identified by their file, delivering any event twice in a row ends in the same state as delivering it once. The program itself creates a new object URL and posts again on each repeat. |
| UploadPanel.DragRunChangesOnlyIndicator | frontend/src/components/ImageUpload.js:55-63 | Any sequence of drag events changes only the drag flag. |
| UploadPanel.EmptyDropOnlyEndsHover | frontend/src/components/ImageUpload.js:65-75 | A drop with an absent or empty file list only clears the drag flag. |
| UploadPanel.ResultOutlivesNewFile | frontend/src/components/ImageUpload.js:15-26 | An earlier prediction survives choosing a new file and is shown next to the new preview. Clearing the picker hides the preview column but keeps the prediction. |
| UploadPanel.EmptySolutionStillRendered | frontend/src/components/ImageUpload.js:132-141 | An empty solution array still renders the solution block, with no bullet. |
| UploadPanel.PromptFollowsLastSignal | frontend/src/components/ImageUpload.js:97-101 | After any run, the drop zone shows the hover text exactly when the last drag signal was dragenter/dragover, or there was none and it showed before. Otherwise it shows the idle text. |
| UploadPanel.ListedPointsOfLastAnswer | frontend/src/components/ImageUpload.js:132-141 | After any run, the bullets shown are the solution of the last answered submission that posted a file, in order. A `null` solution or a falsy class shows none. From a consistent state, the list shows exactly when a file is selected and that answer has a truthy class and a solution array. |
| Pipeline.AnswerIsShown | frontend/src/components/ImageUpload.js:46-48 | The server's answer to a 3-score vector reaches a panel with a file selected. The panel then shows that class and confidence, and the solution block lists the whole non-empty advice list in order. |

## Left out

- TensorFlow model loading and inference, and PIL image decoding, are foreign calls. The score vector is an input to `Predict`. The error `read_file_as_image` raises when the upload is not an image is not modelled. Drag-and-drop bypasses the picker's `accept="image/*"` filter, so such uploads can happen.
- numpy float32 arithmetic and the `float(confidence)` conversion are not modelled. Confidence is a `real`, and NaN scores are not represented.
- FastAPI routing, CORS middleware, the `/ping` route and the uvicorn start-up are framework wiring.
- The axios request, its headers and the FormData construction are I/O. A submit carries an abstract outcome, and `Request` states which file would be posted.
- Overlapping submissions are not modelled. Each response is one atomic event applied to the state current at that time, so the race between in-flight requests is not modelled.
- `URL.createObjectURL` returns a fresh URL on each call. Here it is the injective `PreviewOf` of the file. The object URLs the component never releases are not tracked.
- `preventDefault`, `stopPropagation`, the click that opens the hidden picker (`handleClick`) and `console` logging are browser side effects with no effect on the state.
- JSX markup, CSS classes and inline styles are presentational. Only the visibility conditions and the rendered bullet list are kept.
- The JavaScript state variables hold arbitrary JSON values. `prediction` is modelled as an optional string, `confidence` as an optional number and `solution` as an optional array of strings. Response bodies of other shapes are not modelled.
