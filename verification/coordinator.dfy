/**
  One press of the "Process Image" button, taken sequentially: whether a worker is started, and what
  the worker leaves behind in the result box, on the system clipboard and on the button. The client
  call is represented by what it produced (`Sent`), and the clipboard write by whether it succeeded.
*/
module Coordinator {
  import opened Basics
  import opened OcrClient
  import Clipboard

  /** Shown in the result box when the worker caught an exception. */
  const ErrorBoxText := "Error processing image."

  datatype Button = Normal | Disabled

  /** The message box a press may open. */
  datatype Dialog = NoDialog | NoImageInfo | OcrErrorDialog

  /** What one press leaves behind. `copied` is the text written to the system clipboard, if any. */
  datatype Outcome = Outcome(dispatched: bool, resultBox: string, copied: Option<string>, button: Button, dialog: Dialog)

  /**
    The worker: the text the client returned, whatever it says, is shown and copied; if the client
    raised, or copying raised, the error dialog opens and the box shows `ErrorBoxText`. The
    button is re-enabled on the way out in every case.
  */
  function ProcessImageThread(sent: Sent, copyOk: bool): (o: Outcome)
    ensures o.dispatched && o.button == Normal
    ensures o.copied.Some? <==> sent.Returned? && copyOk
    ensures o.copied.Some? ==> o.copied.value == sent.text && o.resultBox == sent.text && o.dialog == NoDialog
    ensures o.copied.None? ==> o.resultBox == ErrorBoxText && o.dialog == OcrErrorDialog
  {
    match sent
    case Raised => Outcome(true, ErrorBoxText, None, Normal, OcrErrorDialog)
    case Returned(text) =>
      if copyOk then Outcome(true, text, Some(text), Normal, NoDialog)
      else Outcome(true, ErrorBoxText, None, Normal, OcrErrorDialog)
  }

  /** A press of the button, given the image kept by the poller and the state of the window before it. */
  function ProcessImage<I>(current: Option<I>, box: string, button: Button, sent: Sent, copyOk: bool): (o: Outcome)
    ensures o.dispatched <==> current.Some?
    ensures !o.dispatched ==> o == Outcome(false, box, None, button, NoImageInfo)
    ensures o.dispatched ==> o.button == Normal
    ensures o.copied.Some? ==> o.resultBox == o.copied.value
  {
    match current
    case None => Outcome(false, box, None, button, NoImageInfo)
    case Some(_) => ProcessImageThread(sent, copyOk)
  }

  /** When the clipboard write succeeds, whatever string the client returns is displayed and copied, the exhausted-retries text included. */
  lemma ReturnedTextIsShownAndCopied<I>(current: Option<I>, box: string, button: Button, text: string)
    requires current.Some?
    ensures var o := ProcessImage(current, box, button, Returned(text), true);
            o.resultBox == text && o.copied == Some(text) && o.button == Normal && o.dialog == NoDialog
  {
  }

  /** If the client raises, the box shows the error text and the clipboard is left alone. */
  lemma RaisedShowsErrorAndCopiesNothing<I>(current: Option<I>, box: string, button: Button, copyOk: bool)
    requires current.Some?
    ensures var o := ProcessImage(current, box, button, Raised, copyOk);
            o.resultBox == ErrorBoxText && o.copied == None && o.button == Normal && o.dialog == OcrErrorDialog
  {
  }

  /** The button ends up enabled whenever it was enabled before the press. */
  lemma ButtonNeverStaysDisabled<I>(current: Option<I>, box: string, sent: Sent, copyOk: bool)
    ensures ProcessImage(current, box, Normal, sent, copyOk).button == Normal
  {
  }

  /** With a budget of three failures and a clipboard write that succeeds, the exhausted-retries text reaches both the box and the clipboard. */
  lemma ExhaustedTextIsCopied<I>(img: I, box: string, button: Button, respond: nat -> Attempt)
    requires forall i :: 0 <= i < DefaultMaxRetries ==> Retryable(respond(i))
    ensures var o := ProcessImage(Some(img), box, button, SendImageToOpenAI(DefaultMaxRetries, respond).result, true);
            o.copied == Some(ExhaustedText) && o.resultBox == ExhaustedText
  {
    ExhaustedAfterEveryAttemptFails(DefaultMaxRetries, respond);
  }

  /**
    End to end: an image is copied, the poller picks it up, the button is pressed, and the service
    answers "HELLO" at once. The box and the clipboard then hold "HELLO" and the button is enabled.
  */
  lemma EndToEndHello<I>(hash: I -> Digest, img: I, box: string, button: Button, respond: nat -> Attempt)
    requires respond(0) == Choices("HELLO")
    ensures var poller := Clipboard.MonitorClipboard(hash, [Some(img)]);
            var reply := SendImageToOpenAI(DefaultMaxRetries, respond);
            var o := ProcessImage(poller.state.current, box, button, reply.result, true);
            poller.detected == [img] && reply.attempts == 1
            && o.dispatched && o.resultBox == "HELLO" && o.copied == Some("HELLO") && o.button == Normal
  {
    Clipboard.FirstImageIsDetected(hash, [Some(img)]);
    FirstContentReturnedAtOnce(DefaultMaxRetries, respond, 0, "HELLO");
  }
}
