/**
  The poller and the button handler as the program literally binds their names. Both declare
  `global last_image_hash, current_image`, which refers to the module's namespace; the two variables
  are assigned only as locals of `main`, so at module level they stay undefined. Reading an undefined
  global raises NameError.

  The rest of the model reads the two names as `main`'s variables, which is evidently what was meant.
*/
module GlobalScope {
  import opened Basics
  import Clipboard
  import Coordinator
  import OcrClient

  /** A module-level name: never assigned, or bound to a value. */
  datatype Binding<T> = Unbound | Bound(value: T)

  /** The two module-level names the poller and the handler read. */
  datatype Globals<I> = Globals(lastHash: Binding<Option<Digest>>, current: Binding<Option<I>>)

  /** Nothing ever assigns either name at module level before the poller does. */
  function ModuleAtStartup<I>(): Globals<I> {
    Globals(Unbound, Unbound)
  }

  /** One poll: it goes on with new globals and perhaps a report, or NameError ends the poller thread. */
  datatype Poll<I> = Continue(globals: Globals<I>, detected: Option<I>) | NameError

  /**
    One iteration of the loop as written. Without an image the `and` short-circuits before the global
    is read; with one, reading an unbound `last_image_hash` raises.
  */
  function PollAsWritten<I>(hash: I -> Digest, g: Globals<I>, sample: Option<I>): (r: Poll<I>)
    ensures sample.None? ==> r == Continue(g, None)
    ensures sample.Some? && g.lastHash.Unbound? ==> r.NameError?
    ensures sample.Some? && g.lastHash.Bound? ==>
              r.Continue? && (r.detected.Some? <==> g.lastHash.value != Some(hash(sample.value)))
  {
    match sample
    case None => Continue(g, None)
    case Some(img) =>
      match g.lastHash
      case Unbound => NameError
      case Bound(last) =>
        if Some(hash(img)) != last then Continue(Globals(Bound(Some(hash(img))), Bound(Some(img))), Some(img))
        else Continue(g, None)
  }

  /** A run of the poller thread: the globals it leaves, its reports, and whether it is still alive. */
  datatype Run<I> = Run(globals: Globals<I>, detected: seq<I>, alive: bool)

  /** The poller thread as written, over a finite run of samples; it stops at the first NameError. */
  function MonitorAsWritten<I>(hash: I -> Digest, g: Globals<I>, samples: seq<Option<I>>): (r: Run<I>)
    decreases |samples|
    ensures |r.detected| <= |samples|
  {
    if samples == [] then Run(g, [], true)
    else
      match PollAsWritten(hash, g, samples[0])
      case NameError => Run(g, [], false)
      case Continue(g', d) =>
        var rest := MonitorAsWritten(hash, g', samples[1..]);
        Run(rest.globals, OptionToSeq(d) + rest.detected, rest.alive)
  }

  /**
    As written, the poller reports nothing, whatever the clipboard holds; the globals stay unbound,
    and the thread dies at the first image.
  */
  lemma {:induction false} PollerNeverReports<I>(hash: I -> Digest, samples: seq<Option<I>>)
    ensures var r := MonitorAsWritten(hash, ModuleAtStartup(), samples);
            r.detected == [] && r.globals == ModuleAtStartup()
            && (r.alive <==> forall i :: 0 <= i < |samples| ==> samples[i].None?)
  {
    if samples != [] {
      if samples[0].None? {
        PollerNeverReports(hash, samples[1..]);
        assert forall i :: 1 <= i < |samples| ==> samples[i] == samples[1..][i - 1];
      }
    }
  }

  /** The input that shows it: a single image. As written it kills the poller; as intended it is reported. */
  lemma FirstImageEndsPoller<I>(hash: I -> Digest, img: I)
    ensures var r := MonitorAsWritten(hash, ModuleAtStartup(), [Some(img)]);
            r.detected == [] && !r.alive
    ensures Clipboard.MonitorClipboard(hash, [Some(img)]).detected == [img]
  {
    Clipboard.FirstImageIsDetected(hash, [Some(img)]);
  }

  /**
    The button handler as written: reading an unbound `current_image` raises NameError, which Tk
    reports and drops; nothing is started and nothing on screen changes.
  */
  function ProcessAsWritten<I>(g: Globals<I>, box: string, button: Coordinator.Button, sent: OcrClient.Sent, copyOk: bool)
    : (o: Coordinator.Outcome)
    ensures g.current.Unbound? ==> o == Coordinator.Outcome(false, box, None, button, Coordinator.NoDialog)
    ensures g.current.Bound? ==> o == Coordinator.ProcessImage(g.current.value, box, button, sent, copyOk)
  {
    match g.current
    case Unbound => Coordinator.Outcome(false, box, None, button, Coordinator.NoDialog)
    case Bound(c) => Coordinator.ProcessImage(c, box, button, sent, copyOk)
  }

  /**
    As written, pressing the button never starts a worker, whatever was on the clipboard before;
    as intended, a press after an image was copied does.
  */
  lemma ProcessNeverDispatches<I>(hash: I -> Digest, samples: seq<Option<I>>, box: string,
                                  button: Coordinator.Button, sent: OcrClient.Sent, copyOk: bool)
    ensures var g := MonitorAsWritten(hash, ModuleAtStartup(), samples).globals;
            !ProcessAsWritten(g, box, button, sent, copyOk).dispatched
    ensures Clipboard.Images(samples) != [] ==>
              Coordinator.ProcessImage(Clipboard.MonitorClipboard(hash, samples).state.current, box, button, sent, copyOk).dispatched
  {
    PollerNeverReports(hash, samples);
    if Clipboard.Images(samples) != [] {
      Clipboard.FirstImageIsDetected(hash, samples);
    }
  }
}
