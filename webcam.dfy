/** `process_webcam`: reads the webcam frame by frame, draws the detections
    on every frame, shows it, and stops when a read fails or on `q`. Unlike
    the video loop it neither skips nor resizes frames, and writes no rate. */
module Webcam {
  import opened Wrappers
  import opened Frames
  import opened Detector
  import opened Overlay
  import opened Capture
  import VideoFile

  function FrameDetections(env: Env, j: nat): Result<seq<Detection>, int>
    requires j < |env.src.frames|
  {
    env.detect(env.src.frames[j])
  }

  /** The loop ends at frame `j`: its detection fails, or the key polled
      after showing it is `q`. */
  predicate Halts(env: Env, j: nat)
    requires j < |env.src.frames|
  {
    FrameDetections(env, j).Err? || Quits(env.keys(j))
  }

  function HaltFlags(env: Env): (bs: seq<bool>)
    ensures |bs| == |env.src.frames|
    ensures forall j :: 0 <= j < |bs| ==> bs[j] == Halts(env, j)
  {
    seq(|env.src.frames|, j requires 0 <= j < |env.src.frames| => Halts(env, j))
  }

  /** None of the first `p` frames ends the loop. */
  predicate RunsPast(env: Env, p: nat)
    requires p <= |env.src.frames|
  {
    forall j :: 0 <= j < p ==> FrameDetections(env, j).Ok? && !Quits(env.keys(j))
  }

  /** Frame `j` as shown: the frame as read, with its detections drawn. */
  function Captured(env: Env, j: nat): Shown
    requires j < |env.src.frames| && FrameDetections(env, j).Ok?
  {
    Shown(env.src.frames[j], Layout(FrameDetections(env, j).value, env.textSize))
  }

  function CapturedPrefix(env: Env, p: nat): (shown: seq<Shown>)
    requires p <= |env.src.frames| && RunsPast(env, p)
    ensures |shown| == p
  {
    seq(p, j requires 0 <= j < p => Captured(env, j))
  }

  function FirstHalt(env: Env): (s: nat)
    ensures s <= |env.src.frames|
    ensures RunsPast(env, s)
    ensures s < |env.src.frames| ==> Halts(env, s)
  {
    var bs := HaltFlags(env);
    var s := FirstTrue(bs);
    forall j | 0 <= j < s
      ensures FrameDetections(env, j).Ok? && !Quits(env.keys(j))
    {
      assert !bs[j];
    }
    s
  }

  /** `process_webcam` from beginning to end. */
  function Webcam(env: Env): (session: Session)
    ensures session.released <==> session.outcome.EndOfInput? || session.outcome.QuitKey?
    ensures session.outcome.OpenFailed? <==> !env.src.isOpen
    ensures session.outcome.OpenFailed? ==> session.shown == []
    ensures |session.shown| <= |env.src.frames|
  {
    if !env.src.isOpen then Session(OpenFailed, [], false)
    else
      var s := FirstHalt(env);
      if s == |env.src.frames| then Session(EndOfInput, CapturedPrefix(env, s), true)
      else
        match FrameDetections(env, s)
        case Err(c) => Session(DetectFailed(c), CapturedPrefix(env, s), false)
        case Ok(_) => Session(QuitKey, CapturedPrefix(env, s) + [Captured(env, s)], true)
  }

  lemma FirstHaltIs(env: Env, p: nat)
    requires p <= |env.src.frames| && RunsPast(env, p)
    requires p < |env.src.frames| ==> Halts(env, p)
    ensures FirstHalt(env) == p
  {
  }

  lemma CapturedPrefixStep(env: Env, p: nat)
    requires p < |env.src.frames| && RunsPast(env, p + 1)
    ensures CapturedPrefix(env, p + 1) == CapturedPrefix(env, p) + [Captured(env, p)]
  {
  }

  lemma WebcamAtEnd(env: Env)
    requires env.src.isOpen && RunsPast(env, |env.src.frames|)
    ensures Webcam(env) == Session(EndOfInput, CapturedPrefix(env, |env.src.frames|), true)
  {
    FirstHaltIs(env, |env.src.frames|);
  }

  lemma WebcamAtFailure(env: Env, s: nat)
    requires env.src.isOpen && s < |env.src.frames| && RunsPast(env, s) && FrameDetections(env, s).Err?
    ensures Webcam(env) == Session(DetectFailed(FrameDetections(env, s).error), CapturedPrefix(env, s), false)
  {
    FirstHaltIs(env, s);
  }

  lemma WebcamAtQuit(env: Env, s: nat)
    requires env.src.isOpen && s < |env.src.frames| && RunsPast(env, s)
    requires FrameDetections(env, s).Ok? && Quits(env.keys(s))
    ensures Webcam(env) == Session(QuitKey, CapturedPrefix(env, s) + [Captured(env, s)], true)
  {
    FirstHaltIs(env, s);
  }

  /** The loop of `process_webcam`, with the frames of `cv2.VideoCapture(0)`,
      the model, the font metrics and the keyboard as parameters. */
  method ProcessWebcam(model: (Frame, real) -> seq<RawResult>, textSize: Caption -> Size, src: Source, keys: nat -> int)
    returns (session: Session)
    ensures session == Webcam(Env(Detect(model), textSize, src, keys))
  {
    ghost var env := Env(Detect(model), textSize, src, keys);
    if !src.isOpen {
      return Session(OpenFailed, [], false);
    }
    var frames := 0;
    var shown: seq<Shown> := [];
    var outcome := EndOfInput;
    while true
      invariant 0 <= frames <= |src.frames|
      invariant RunsPast(env, frames)
      invariant shown == CapturedPrefix(env, frames)
      decreases |src.frames| - frames
    {
      if frames == |src.frames| {
        // the read fails
        WebcamAtEnd(env);
        break;
      }
      var frame := src.frames[frames];
      var detections := DetectObjects(model, frame);
      assert detections == FrameDetections(env, frames);
      if detections.Err? {
        // the KeyError leaves the function before `cap.release()`
        WebcamAtFailure(env, frames);
        return Session(DetectFailed(detections.error), shown, false);
      }
      var canvas := new Canvas(frame);
      DrawDetections(canvas, detections.value, textSize);
      assert canvas.marks == Layout(detections.value, textSize);
      shown := shown + [Shown(canvas.frame, canvas.marks)];
      if Quits(keys(frames)) {
        WebcamAtQuit(env, frames);
        outcome := QuitKey;
        break;
      }
      CapturedPrefixStep(env, frames);
      frames := frames + 1;
    }
    // cap.release()
    session := Session(outcome, shown, true);
  }

  /** With every frame processed and none resized, the video loop's `j`-th
      processed frame is the webcam's frame `j`, and so are its detections. */
  lemma UnskippedFrames(env: Env, plan: VideoFile.Plan)
    requires plan.skipFrames == 1 && plan.resizeFactor == 1.0
    ensures VideoFile.Opportunities(env, plan) == |env.src.frames|
    ensures forall j :: 0 <= j < |env.src.frames| ==>
      VideoFile.Prepared(plan, VideoFile.InputFrame(env, plan, j)) == env.src.frames[j] &&
      VideoFile.Detections(env, plan, j) == FrameDetections(env, j)
  {
    assert VideoFile.Opportunities(env, plan) == |env.src.frames|;
  }

  lemma UnskippedPrefix(env: Env, plan: VideoFile.Plan, s: nat)
    requires plan.skipFrames == 1 && plan.resizeFactor == 1.0
    requires s <= |env.src.frames| && RunsPast(env, s)
    ensures VideoFile.Opportunities(env, plan) == |env.src.frames|
    ensures VideoFile.NoStopBefore(env, plan, s)
    ensures forall j :: 0 <= j < s ==>
      VideoFile.ShownPrefix(env, plan, s)[j] == Shown(CapturedPrefix(env, s)[j].frame, CapturedPrefix(env, s)[j].marks + VideoFile.FpsMarks(j + 1))
  {
    UnskippedFrames(env, plan);
  }

  /** The webcam loop is the video loop with every frame processed
      (`skip_frames` 1) and none resized (`resize_factor` 1.0), except that
      it writes no rate: it shows the same frames with the same drawings,
      ends the same way and releases the capture in the same cases. */
  lemma WebcamIsUnskippedVideo(env: Env, plan: VideoFile.Plan)
    requires plan.skipFrames == 1 && plan.resizeFactor == 1.0
    ensures var w := Webcam(env);
      var v := VideoFile.Video(env, plan).session;
      w.outcome == v.outcome && w.released == v.released && |w.shown| == |v.shown| &&
      forall j :: 0 <= j < |w.shown| ==> v.shown[j] == Shown(w.shown[j].frame, w.shown[j].marks + VideoFile.FpsMarks(j + 1))
  {
    if env.src.isOpen {
      var n := |env.src.frames|;
      var s := FirstHalt(env);
      UnskippedFrames(env, plan);
      UnskippedPrefix(env, plan, s);
      VideoFile.FirstStopIs(env, plan, s);
      if s == n {
        WebcamAtEnd(env);
        VideoFile.VideoAtEnd(env, plan);
      } else if FrameDetections(env, s).Err? {
        WebcamAtFailure(env, s);
        VideoFile.VideoAtFailure(env, plan, s);
      } else {
        WebcamAtQuit(env, s);
        VideoFile.VideoAtQuit(env, plan, s);
        VideoFile.ShownFrameIs(env, plan, s, env.src.frames[s], FrameDetections(env, s).value);
      }
    }
  }
}
