# Clipboard OCR tool: a Dafny model of its decision logic

The tool watches the system clipboard for screenshots. A background poller fingerprints each
clipboard image and remembers the newest one. A "Process Image" button sends the remembered image to
a vision model. The model's reply is shown in a text box and copied back to the clipboard. This
project models the three pieces of decision logic in `main-app.py` and proves properties of them.

- **Clipboard poller** (`clipboard.dfy`, module `Clipboard`). The polling loop is a fold over a finite
  sequence of clipboard samples. Its state is the last fingerprint and the kept image, both `None` at
  startup. The image type is a type parameter, and the fingerprint function (MD5 of a PNG re-encoding
  in the program) is a parameter `hash: I -> Digest`, where a digest is 32 lower-case hex digits. The
  main theorem is that the poller reports exactly the first image of every run of consecutive samples
  with equal fingerprints (`FirstOfRuns`). Samples without an image are skipped.
- **OCR client retry loop** (`ocr_client.dfy`, module `OcrClient`). The request is built once and
  reused, so the service is modelled as its answer to each attempt number, `respond: nat -> Attempt`.
  The client returns a plain string (or raises), plus the number of posts and the number of sleeps.
  `RetryContract` describes the loop without recursion, and is shown to pin down the reply uniquely.
- **One processing attempt** (`coordinator.dfy`, module `Coordinator`). Given the kept image, the
  client's result and whether the clipboard write succeeded, it gives: whether a worker started, the
  final result-box text, what was copied, the final button state and the dialog shown.
- **Names as the program binds them** (`global_scope.dfy`, module `GlobalScope`). This gives the
  literal meaning of the `global` declarations, which makes the program behave differently from what
  was intended (see Findings).
- `basics.dfy` (module `Basics`) holds `Option`, `Digest` and small helpers.

Three behaviours of the code differ from what the tool's purpose suggests; the model follows the code:
- The client returns a plain string, not a tagged success/failure. So `ExhaustedText`, the fixed string
  returned once every attempt has failed, is shown and copied to the clipboard just like recognised text
  (`Coordinator.ExhaustedTextIsCopied`).
- Clipboard read errors are not caught by the code.
- The button is disabled inside the worker thread, so one request at a time is not actually enforced.

The model departs from the literal code in one place: the `global` declarations at main-app.py:170 and
main-app.py:207. As written, they make the poller raise NameError at the first image and the button
handler raise NameError on every press.
The `Clipboard` and `Coordinator` modules instead read `last_image_hash` and `current_image` as
`main`'s own variables, which is the evidently intended behaviour. `GlobalScope` gives the literal
semantics. Both are in Findings.

## Model

| member | source | states |
|---|---|---|
| Clipboard.CaptureClipboardImage | main-app.py:145-149 | only image content becomes a sample; an empty clipboard or a list of copied files counts as "no image" |
| Clipboard.NonImageContentChangesNothing | main-app.py:145-149 | a poll of an empty clipboard or of a list of copied files leaves the poller's memory unchanged and reports nothing |
| Clipboard.GetImageHash | main-app.py:128-135 | an absent image has no fingerprint and a present one always has one, so a real image never matches the startup `None` |
| Clipboard.PollOnce | main-app.py:209-214 | a poll reports an image exactly when an image is present and its fingerprint differs from the remembered one; a report stores that fingerprint and image; otherwise nothing changes; the fingerprint-matches-image invariant is kept |
| Clipboard.MonitorClipboard | main-app.py:206-225 | after any run from startup (both fields `None`, as bound at lines 262-263), the remembered fingerprint is the kept image's fingerprint, the kept image is the last one reported, and there are never more reports than image samples |
| Clipboard.LastHashIsLastImage | main-app.py:210-214 | the remembered fingerprint is always that of the most recent image sample, whether or not it was reported |
| Clipboard.DetectionsAreFirstOfRuns | main-app.py:206-214 | the reports are exactly the first image of each maximal run of consecutive image samples with equal fingerprints, with non-image samples skipped |
| Clipboard.NoRepeatedReport | main-app.py:212-214 | two successive reports never carry the same fingerprint, so an unchanged image is never reported again |
| Clipboard.FirstOfRunsKeepsHead | main-app.py:212-214 | the reference run-compression keeps the first image and is empty only for no images |
| Clipboard.FirstImageIsDetected | main-app.py:206-214 | the first image sampled after startup is always reported, and it is the first report |
| Clipboard.NonImageSamplesAreInvisible | main-app.py:209-212 | two sample sequences with the same images in the same order end in the same state with the same reports, so a non-image sample never resets anything |
| Clipboard.SameImageReportedOnce | main-app.py:212-214 | the same image on the clipboard for n >= 1 polls gives exactly one report |
| Clipboard.ExampleRunsOfTwo | main-app.py:212-214 | fingerprints A, A, B, B, A give exactly the reports A, B, A |
| Clipboard.ExampleGapDoesNotReset | main-app.py:209-214 | image A, no image, image A gives a single report |
| OcrClient.Conclude | main-app.py:111-120 | an attempt that is not retried either returns the first choice's content or raises |
| OcrClient.SendFrom | main-app.py:103-125 | from any iteration on: every attempt slept after was retryable; the loop stops at the first attempt that is not retryable, with its result, or uses up the budget and returns `ExhaustedText` |
| OcrClient.SendImageToOpenAI | main-app.py:87-125 | the whole call meets the retry contract: at most `max_retries` attempts, one sleep per failed attempt (the last included), the first content returned at once, `ExhaustedText` when the budget runs out |
| OcrClient.RetryContractIsDeterministic | main-app.py:103-125 | at most one reply meets the retry contract, so the contract fully describes the loop |
| OcrClient.SameAnswersSameReply | main-app.py:103-123 | the reply depends only on which attempts are retried and on what the other attempts answer |
| OcrClient.MissingChoicesIsRetriedLikeRequestError | main-app.py:111-120 | a response with `choices` missing or empty is treated exactly like a failed request |
| OcrClient.FirstContentReturnedAtOnce | main-app.py:103-113 | if attempts 0..k-1 fail and attempt k < max_retries answers, that content is returned after k+1 attempts and k sleeps |
| OcrClient.ExampleFailThenSucceed | main-app.py:87-113 | fail then succeed with the default budget of 3 uses exactly 2 attempts and 1 sleep |
| OcrClient.ExhaustedAfterEveryAttemptFails | main-app.py:103-125 | if every attempt fails, `ExhaustedText` is returned (nothing is raised) after max(max_retries, 0) attempts and as many sleeps |
| OcrClient.NoBudgetNoAttempt | main-app.py:103-125 | with max_retries <= 0 no attempt is made and `ExhaustedText` is returned |
| Coordinator.ProcessImageThread | main-app.py:177-203 | the worker always re-enables the button; it copies exactly when the client returned and the copy succeeded, and what it copies is what it shows; otherwise the box shows `Error processing image.` and the error dialog opens |
| Coordinator.ProcessImage | main-app.py:169-175 | a worker starts exactly when an image is kept; without one only the "no image" dialog appears and nothing else changes; after a worker the button is enabled and any copied text is the displayed text |
| Coordinator.ReturnedTextIsShownAndCopied | main-app.py:188-195 | when the clipboard write succeeds, any returned string is displayed and copied, with no dialog |
| Coordinator.RaisedShowsErrorAndCopiesNothing | main-app.py:197-200 | if the client raises, the box shows "Error processing image." and nothing is copied |
| Coordinator.ButtonNeverStaysDisabled | main-app.py:201-203 | a press never leaves an enabled button disabled, on any path |
| Coordinator.ExhaustedTextIsCopied | main-app.py:188-195 | when all three default attempts fail and the clipboard write succeeds, `ExhaustedText` is both shown and copied to the clipboard |
| Coordinator.EndToEndHello | main-app.py:169-203 | image copied, detected, processed, service answers "HELLO" at once: one report, one attempt, box and clipboard hold "HELLO", button enabled |
| GlobalScope.PollAsWritten | main-app.py:206-214 | with the names bound at module level: no image means no change; an image read against an unbound `last_image_hash` raises NameError |
| GlobalScope.MonitorAsWritten | main-app.py:206-225 | the poller thread as written reports at most one image per sample |
| GlobalScope.PollerNeverReports | main-app.py:207-212 | as written, from startup the poller never reports, the module-level names stay unbound, and the thread dies at the first image |
| GlobalScope.FirstImageEndsPoller | main-app.py:207-214 | one image after startup kills the poller as written, while the intended poller reports it |
| GlobalScope.ProcessAsWritten | main-app.py:169-175 | as written, an unbound `current_image` makes the handler raise, so nothing starts and nothing on screen changes |
| GlobalScope.ProcessNeverDispatches | main-app.py:169-175 | as written, a press never starts a worker whatever the clipboard held; as intended it does once any image was sampled |

## Left out

- The Tk window, the preview window, `view_image`, `resize_image` and `bring_to_front`: these are
  layout and rendering, with no decision logic.
- Clipboard.PollOnce: it reads `last_image_hash` and `current_image` as `main`'s variables, not as
  the module globals the code declares. `GlobalScope` models the literal reading (see Findings).
- Threads: each processing attempt is modelled as one sequential step. The race that comes from
  disabling the button inside the worker is therefore not modelled.
- Clipboard.MonitorClipboard: the endless loop is modelled over finite sequences of samples, and the
  one-second sleep is left out.
- An exception raised by the clipboard grab itself is not modelled. The code does not catch it, so it
  would end the poller thread.
- The HTTP post, the status check, JSON decoding, `get_headers` and the environment lookup of the API
  key are not modelled. Each attempt is an abstract `Attempt` answer.
- OcrClient.SendImageToOpenAI: an exception while building the payload, before the first attempt, is
  not modelled. For example, the JPEG encoder rejects palette images that have no transparency. Such an
  exception reaches the worker only through `Coordinator`'s `Raised` input.
- The JPEG and base64 encoding of the payload and the MD5-over-PNG fingerprint are library code. The
  fingerprint is the `hash` parameter.
- A message `content` that is not a string, such as JSON `null`, is not modelled. The content is always
  a string.
- Sleep durations, `retry_delay`, the `temperature` float and the log lines printed per failed attempt
  are not modelled. Only sleeps are counted.
- `add-api-key.py` is not modelled. It is a form around a shell command, and its only logic is an
  empty-after-strip check.

## Findings

| source | as written | input that shows it | evidently intended | confidence | as-written member | corrected member |
|---|---|---|---|---|---|---|
| main-app.py:207-212 | `global last_image_hash, current_image` refers to module scope, but the two names are only locals of `main` (lines 262-263). Once the clipboard holds an image, line 212 reads an undefined global and raises NameError, which ends the poller thread. | any image on the clipboard after startup | the loop uses `main`'s variables (`nonlocal`), so the first image is reported | high; not executed | GlobalScope.FirstImageEndsPoller | Clipboard.FirstImageIsDetected |
| main-app.py:170-171 | `process_image` declares `global current_image`, which nothing ever binds. Every press raises NameError inside the Tk callback, so no worker ever starts. | pressing "Process Image" after copying an image | the handler reads `main`'s kept image and starts a worker when there is one | high; not executed | GlobalScope.ProcessNeverDispatches | Coordinator.ProcessImage |
