/**
  The clipboard poller: every second it samples the clipboard, fingerprints an image if one is
  there, and reports the image when its fingerprint differs from the last one remembered.

  The image type is a parameter `I`; the fingerprint function (an MD5 digest of a PNG re-encoding
  in the program) is a parameter `hash: I -> Digest`, so nothing is assumed about it beyond its type.
  Taking a copy of an image is the identity on values.
*/
module Clipboard {
  import opened Basics

  /** What the clipboard grab can hand back: nothing, a list of copied file paths, or an image. */
  datatype ClipContent<I> = NoContent | FileList(paths: seq<string>) | Bitmap(image: I)

  /** Only image content counts as a sample; everything else is "no image". */
  function CaptureClipboardImage<I>(c: ClipContent<I>): (r: Option<I>)
    ensures r.Some? <==> c.Bitmap?
    ensures c.Bitmap? ==> r == Some(c.image)
  {
    match c
    case Bitmap(img) => Some(img)
    case _ => None
  }

  /** The fingerprint of a sample: absent exactly for the absent image. */
  function GetImageHash<I>(hash: I -> Digest, image: Option<I>): (r: Option<Digest>)
    ensures r.None? <==> image.None?
    ensures image.Some? ==> r == Some(hash(image.value))
  {
    match image
    case None => None
    case Some(img) => Some(hash(img))
  }

  /** The poller's memory: the last fingerprint seen and the image kept for processing. */
  datatype Poller<I> = Poller(lastHash: Option<Digest>, current: Option<I>)

  /** Both fields start out as `None`, as `main` binds them before starting the poller (main-app.py:262-263). */
  function Startup<I>(): Poller<I> {
    Poller(None, None)
  }

  /** The remembered fingerprint is the fingerprint of the remembered image. */
  predicate Consistent<I>(hash: I -> Digest, p: Poller<I>) {
    p.lastHash == GetImageHash(hash, p.current)
  }

  /** The outcome of one poll: the new memory and the image reported, if any. */
  datatype Tick<I> = Tick(next: Poller<I>, detected: Option<I>)

  /** One iteration of the polling loop. */
  function PollOnce<I>(hash: I -> Digest, p: Poller<I>, sample: Option<I>): (t: Tick<I>)
    ensures t.detected.Some? <==> sample.Some? && p.lastHash != Some(hash(sample.value))
    ensures t.detected.Some? ==> sample.Some? && t.detected == sample && t.next == Poller(Some(hash(sample.value)), sample)
    ensures t.detected.None? ==> t.next == p
    ensures Consistent(hash, p) ==> Consistent(hash, t.next)
  {
    var imageHash := GetImageHash(hash, sample);
    if sample.Some? && imageHash != p.lastHash then
      Tick(Poller(imageHash, Some(sample.value)), Some(sample.value))
    else
      Tick(p, None)
  }

  /** A clipboard holding no image, or only a list of copied files, makes a poll that changes nothing and reports nothing. */
  lemma NonImageContentChangesNothing<I>(hash: I -> Digest, p: Poller<I>, c: ClipContent<I>)
    requires !c.Bitmap?
    ensures PollOnce(hash, p, CaptureClipboardImage(c)) == Tick(p, None)
  {
  }

  /** The poller's memory after a run, and every image it reported, in order. */
  datatype Trace<I> = Trace(state: Poller<I>, detected: seq<I>)

  /** The images among the samples, in order. */
  function Images<I>(samples: seq<Option<I>>): (imgs: seq<I>)
    ensures |imgs| <= |samples|
  {
    if samples == [] then []
    else Images(samples[..|samples| - 1]) + OptionToSeq(samples[|samples| - 1])
  }

  /** The polling loop run over a finite sequence of clipboard samples, starting at startup. */
  function MonitorClipboard<I>(hash: I -> Digest, samples: seq<Option<I>>): (t: Trace<I>)
    ensures Consistent(hash, t.state)
    ensures t.state.current == LastOf(t.detected)
    ensures |t.detected| <= |Images(samples)|
  {
    if samples == [] then Trace(Startup(), [])
    else
      var before := MonitorClipboard(hash, samples[..|samples| - 1]);
      var tick := PollOnce(hash, before.state, samples[|samples| - 1]);
      Trace(tick.next, before.detected + OptionToSeq(tick.detected))
  }

  /**
    Reference behaviour, without any state: of every maximal run of consecutive images that share a
    fingerprint, keep the first image.
  */
  function FirstOfRuns<I>(hash: I -> Digest, imgs: seq<I>): seq<I> {
    if imgs == [] then []
    else
      var rest := imgs[..|imgs| - 1];
      var x := imgs[|imgs| - 1];
      if rest != [] && hash(rest[|rest| - 1]) == hash(x) then FirstOfRuns(hash, rest)
      else FirstOfRuns(hash, rest) + [x]
  }

  /** The remembered fingerprint is always that of the last image sampled, whether or not it was reported. */
  lemma {:induction false} LastHashIsLastImage<I>(hash: I -> Digest, samples: seq<Option<I>>)
    ensures MonitorClipboard(hash, samples).state.lastHash == GetImageHash(hash, LastOf(Images(samples)))
  {
    if samples != [] {
      var prefix := samples[..|samples| - 1];
      LastHashIsLastImage(hash, prefix);
      assert Images(samples) == Images(prefix) + OptionToSeq(samples[|samples| - 1]);
    }
  }

  /** The poller reports exactly the first image of every run of equal fingerprints. */
  lemma {:induction false} DetectionsAreFirstOfRuns<I>(hash: I -> Digest, samples: seq<Option<I>>)
    ensures MonitorClipboard(hash, samples).detected == FirstOfRuns(hash, Images(samples))
  {
    if samples != [] {
      var prefix := samples[..|samples| - 1];
      var last := samples[|samples| - 1];
      DetectionsAreFirstOfRuns(hash, prefix);
      LastHashIsLastImage(hash, prefix);
      var imgs := Images(prefix);
      assert Images(samples) == imgs + OptionToSeq(last);
      match last
      case None =>
        assert Images(samples) == imgs;
      case Some(x) =>
        assert Images(samples) == imgs + [x];
        assert (imgs + [x])[..|imgs|] == imgs;
        assert FirstOfRuns(hash, imgs + [x])
            == if imgs != [] && hash(imgs[|imgs| - 1]) == hash(x) then FirstOfRuns(hash, imgs)
               else FirstOfRuns(hash, imgs) + [x];
    }
  }

  /** No two neighbouring images share a fingerprint. */
  predicate NeighboursDiffer<I>(hash: I -> Digest, imgs: seq<I>) {
    forall i :: 0 < i < |imgs| ==> hash(imgs[i - 1]) != hash(imgs[i])
  }

  /** Of two successive reports, the second always carries a different fingerprint from the first. */
  lemma {:induction false} NoRepeatedReport<I>(hash: I -> Digest, samples: seq<Option<I>>)
    ensures NeighboursDiffer(hash, MonitorClipboard(hash, samples).detected)
  {
    if samples != [] {
      var prefix := samples[..|samples| - 1];
      var sample := samples[|samples| - 1];
      NoRepeatedReport(hash, prefix);
      var before := MonitorClipboard(hash, prefix);
      var tick := PollOnce(hash, before.state, sample);
      var d := MonitorClipboard(hash, samples).detected;
      match tick.detected
      case None =>
        assert d == before.detected;
      case Some(x) =>
        var n := |before.detected|;
        assert d == before.detected + [x];
        assert NeighboursDiffer(hash, before.detected);
        if n > 0 {
          assert before.state.lastHash == Some(hash(before.detected[n - 1]));
          assert sample == Some(x) && before.state.lastHash != Some(hash(x));
          forall i | 0 < i < |d|
            ensures hash(d[i - 1]) != hash(d[i])
          {
            if i < n {
              assert d[i - 1] == before.detected[i - 1] && d[i] == before.detected[i];
            } else {
              assert d[i - 1] == before.detected[n - 1] && d[i] == x;
            }
          }
        }
    }
  }

  /** A run always begins with its own first image. */
  lemma {:induction false} FirstOfRunsKeepsHead<I>(hash: I -> Digest, imgs: seq<I>)
    ensures var r := FirstOfRuns(hash, imgs);
            (r == [] <==> imgs == []) && (imgs != [] ==> r[0] == imgs[0])
  {
    if imgs != [] {
      var rest := imgs[..|imgs| - 1];
      FirstOfRunsKeepsHead(hash, rest);
      if rest != [] {
        assert rest[0] == imgs[0];
      }
    }
  }

  /** The first image sampled after startup is always reported, and it is the first report. */
  lemma FirstImageIsDetected<I>(hash: I -> Digest, samples: seq<Option<I>>)
    requires Images(samples) != []
    ensures var d := MonitorClipboard(hash, samples).detected;
            d != [] && d[0] == Images(samples)[0]
  {
    DetectionsAreFirstOfRuns(hash, samples);
    FirstOfRunsKeepsHead(hash, Images(samples));
  }

  /** Samples without an image are invisible: runs with the same images end in the same memory and report the same images. */
  lemma {:induction false} NonImageSamplesAreInvisible<I>(hash: I -> Digest, s: seq<Option<I>>, t: seq<Option<I>>)
    requires Images(s) == Images(t)
    ensures MonitorClipboard(hash, s) == MonitorClipboard(hash, t)
  {
    DetectionsAreFirstOfRuns(hash, s);
    DetectionsAreFirstOfRuns(hash, t);
    LastHashIsLastImage(hash, s);
    LastHashIsLastImage(hash, t);
  }

  /** The same image on the clipboard for any number of polls is reported once. */
  lemma {:induction false} SameImageReportedOnce<I>(hash: I -> Digest, img: I, n: nat)
    requires n >= 1
    ensures MonitorClipboard(hash, seq(n, _ => Some(img))).detected == [img]
  {
    var samples := seq(n, _ => Some(img));
    if n > 1 {
      SameImageReportedOnce(hash, img, n - 1);
      assert samples[..n - 1] == seq(n - 1, _ => Some(img));
    }
  }

  /** Running the poller over one more sample is one more poll after the shorter run. */
  lemma MonitorOneMore<I>(hash: I -> Digest, samples: seq<Option<I>>, sample: Option<I>)
    ensures var before := MonitorClipboard(hash, samples);
            var tick := PollOnce(hash, before.state, sample);
            MonitorClipboard(hash, samples + [sample]) == Trace(tick.next, before.detected + OptionToSeq(tick.detected))
  {
    assert (samples + [sample])[..|samples|] == samples;
  }

  /** Fingerprints A, A, B, B, A give three reports: A, B, A. */
  lemma ExampleRunsOfTwo<I>(hash: I -> Digest, a: I, b: I)
    requires hash(a) != hash(b)
    ensures MonitorClipboard(hash, [Some(a), Some(a), Some(b), Some(b), Some(a)]).detected == [a, b, a]
  {
    var s0: seq<Option<I>> := [];
    var s1 := s0 + [Some(a)];
    var s2 := s1 + [Some(a)];
    var s3 := s2 + [Some(b)];
    var s4 := s3 + [Some(b)];
    var s5 := s4 + [Some(a)];
    var pa: Poller<I> := Poller(Some(hash(a)), Some(a));
    var pb: Poller<I> := Poller(Some(hash(b)), Some(b));
    MonitorOneMore(hash, s0, Some(a));
    assert MonitorClipboard(hash, s1) == Trace(pa, [a]);
    MonitorOneMore(hash, s1, Some(a));
    assert MonitorClipboard(hash, s2) == Trace(pa, [a]);
    MonitorOneMore(hash, s2, Some(b));
    assert MonitorClipboard(hash, s3) == Trace(pb, [a, b]);
    MonitorOneMore(hash, s3, Some(b));
    assert MonitorClipboard(hash, s4) == Trace(pb, [a, b]);
    MonitorOneMore(hash, s4, Some(a));
    assert MonitorClipboard(hash, s5).detected == [a, b, a];
    assert s5 == [Some(a), Some(a), Some(b), Some(b), Some(a)];
  }

  /** An image, then something that is not an image, then the same image again: one report. */
  lemma ExampleGapDoesNotReset<I>(hash: I -> Digest, a: I)
    ensures MonitorClipboard(hash, [Some(a), None, Some(a)]).detected == [a]
  {
    var s0: seq<Option<I>> := [];
    var s1 := s0 + [Some(a)];
    var s2 := s1 + [None];
    var s3 := s2 + [Some(a)];
    MonitorOneMore(hash, s0, Some(a));
    assert MonitorClipboard(hash, s1) == Trace(Poller(Some(hash(a)), Some(a)), [a]);
    MonitorOneMore(hash, s1, None);
    assert MonitorClipboard(hash, s2) == Trace(Poller(Some(hash(a)), Some(a)), [a]);
    MonitorOneMore(hash, s2, Some(a));
    assert s3 == [Some(a), None, Some(a)];
  }
}
