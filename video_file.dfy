/** `process_video_file`: reads a video frame by frame, processes every
    `skip_frames`-th frame (resized by `resize_factor` unless that is 1.0),
    draws its detections, stamps every tenth processed frame with the
    processing rate, shows it, and stops at the end of the video or on `q`. */
module VideoFile {
  import opened Wrappers
  import opened Numeric
  import opened Frames
  import opened Detector
  import opened Overlay
  import opened Capture

  /** The rate is written on every tenth processed frame. */
  const FpsInterval: int := 10

  /** `cv2.putText(frame, f"FPS: ...", (10, 30), font, 1, (0, 255, 0), 2)`;
      the number itself comes from the clock and is not modelled. */
  const FpsMark: Mark := Text(FpsCaption, Point(10, 30), 1.0, FpsColor, 2)

  /** The rate stamp drawn once `processed` frames have been processed. */
  function FpsMarks(processed: nat): seq<Mark> {
    if processed % FpsInterval == 0 then [FpsMark] else []
  }

  /** The state of the loop when it ends: what it showed and its two
      counters, `frame_count` and `processed_frames`. */
  datatype Run = Run(session: Session, frameCount: nat, processedFrames: nat)

  /** What is fixed before the loop starts: the resize factor, the size
      `new_width` x `new_height` it gives, and `skip_frames`. */
  datatype Plan = Plan(resizeFactor: real, newWidth: int, newHeight: int, skipFrames: int)

  /** `int(frame_width * resize_factor)` with `frame_width =
      int(cap.get(CAP_PROP_FRAME_WIDTH))`: computed from the size the
      capture reports, not from the frames. */
  function ProcessingWidth(src: Source, r: real): int {
    Trunc(Trunc(src.reportedWidth) as real * r)
  }

  function ProcessingHeight(src: Source, r: real): int {
    Trunc(Trunc(src.reportedHeight) as real * r)
  }

  function PlanFor(src: Source, r: real, k: int): Plan {
    Plan(r, ProcessingWidth(src, r), ProcessingHeight(src, r), k)
  }

  /** The frame handed to the detector: resized unless the factor is 1.0. */
  function Prepared(plan: Plan, f: Frame): Frame {
    if plan.resizeFactor != 1.0 then Resize(f, plan.newWidth, plan.newHeight) else f
  }

  /** How many of the frame numbers 1 .. |frames| are multiples of the skip:
      the frames the loop processes when nothing stops it. */
  function Opportunities(env: Env, plan: Plan): nat
    requires plan.skipFrames >= 1
  {
    |env.src.frames| / plan.skipFrames
  }

  /** The frame read as number `(j + 1) * skip`, the `j`-th one processed
      (counting from zero). */
  function InputFrame(env: Env, plan: Plan, j: nat): Frame
    requires plan.skipFrames >= 1 && j < Opportunities(env, plan)
  {
    MultipleWithin(|env.src.frames|, plan.skipFrames, j);
    env.src.frames[(j + 1) * plan.skipFrames - 1]
  }

  /** What `detect_objects` returns for the `j`-th processed frame. */
  function Detections(env: Env, plan: Plan, j: nat): Result<seq<Detection>, int>
    requires plan.skipFrames >= 1 && j < Opportunities(env, plan)
  {
    env.detect(Prepared(plan, InputFrame(env, plan, j)))
  }

  /** The loop ends at the `j`-th processed frame: its detection fails, or
      the key polled after showing it is `q`. */
  predicate Stops(env: Env, plan: Plan, j: nat)
    requires plan.skipFrames >= 1 && j < Opportunities(env, plan)
  {
    Detections(env, plan, j).Err? || Quits(env.keys(j))
  }

  function StopFlags(env: Env, plan: Plan): (bs: seq<bool>)
    requires plan.skipFrames >= 1
    ensures |bs| == Opportunities(env, plan)
    ensures forall j :: 0 <= j < |bs| ==> bs[j] == Stops(env, plan, j)
  {
    seq(Opportunities(env, plan), j requires 0 <= j < Opportunities(env, plan) => Stops(env, plan, j))
  }

  /** None of the first `p` processed frames stops the loop. */
  predicate NoStopBefore(env: Env, plan: Plan, p: nat)
    requires plan.skipFrames >= 1 && p <= Opportunities(env, plan)
  {
    forall j :: 0 <= j < p ==> Detections(env, plan, j).Ok? && !Quits(env.keys(j))
  }

  /** The `j`-th frame shown: the prepared frame with its detections drawn
      and, on every tenth, the rate. */
  function ShownFrame(env: Env, plan: Plan, j: nat): Shown
    requires plan.skipFrames >= 1 && j < Opportunities(env, plan) && Detections(env, plan, j).Ok?
  {
    Shown(Prepared(plan, InputFrame(env, plan, j)),
          Layout(Detections(env, plan, j).value, env.textSize) + FpsMarks(j + 1))
  }

  function ShownPrefix(env: Env, plan: Plan, p: nat): (shown: seq<Shown>)
    requires plan.skipFrames >= 1 && p <= Opportunities(env, plan) && NoStopBefore(env, plan, p)
    ensures |shown| == p
  {
    seq(p, j requires 0 <= j < p => ShownFrame(env, plan, j))
  }

  /** The first processed frame at which the loop stops, or the number of
      frames it can process when none stops it. */
  function FirstStop(env: Env, plan: Plan): (s: nat)
    requires plan.skipFrames >= 1
    ensures s <= Opportunities(env, plan)
    ensures NoStopBefore(env, plan, s)
    ensures s < Opportunities(env, plan) ==> Stops(env, plan, s)
  {
    var bs := StopFlags(env, plan);
    var s := FirstTrue(bs);
    forall j | 0 <= j < s
      ensures Detections(env, plan, j).Ok? && !Quits(env.keys(j))
    {
      assert !bs[j];
    }
    s
  }

  /** `process_video_file` from beginning to end. */
  function Video(env: Env, plan: Plan): (run: Run)
    requires plan.skipFrames >= 1
    ensures run.session.released <==> run.session.outcome.EndOfInput? || run.session.outcome.QuitKey?
    ensures run.session.outcome.OpenFailed? <==> !env.src.isOpen
    ensures run.session.outcome.OpenFailed? ==> run.session.shown == [] && run.frameCount == 0
    ensures run.processedFrames == |run.session.shown| <= Opportunities(env, plan)
    ensures run.frameCount <= |env.src.frames|
  {
    if !env.src.isOpen then Run(Session(OpenFailed, [], false), 0, 0)
    else
      var n := Opportunities(env, plan);
      var s := FirstStop(env, plan);
      if s == n then Run(Session(EndOfInput, ShownPrefix(env, plan, n), true), |env.src.frames|, n)
      else
        MultipleWithin(|env.src.frames|, plan.skipFrames, s);
        match Detections(env, plan, s)
        case Err(c) => Run(Session(DetectFailed(c), ShownPrefix(env, plan, s), false), (s + 1) * plan.skipFrames, s)
        case Ok(_) =>
          Run(Session(QuitKey, ShownPrefix(env, plan, s) + [ShownFrame(env, plan, s)], true),
              (s + 1) * plan.skipFrames, s + 1)
  }

  lemma FirstStopIs(env: Env, plan: Plan, p: nat)
    requires plan.skipFrames >= 1 && p <= Opportunities(env, plan) && NoStopBefore(env, plan, p)
    requires p < Opportunities(env, plan) ==> Stops(env, plan, p)
    ensures FirstStop(env, plan) == p
  {
  }

  lemma ShownPrefixStep(env: Env, plan: Plan, p: nat)
    requires plan.skipFrames >= 1 && p < Opportunities(env, plan) && NoStopBefore(env, plan, p + 1)
    ensures ShownPrefix(env, plan, p + 1) == ShownPrefix(env, plan, p) + [ShownFrame(env, plan, p)]
  {
  }

  lemma VideoAtEnd(env: Env, plan: Plan)
    requires plan.skipFrames >= 1 && env.src.isOpen && NoStopBefore(env, plan, Opportunities(env, plan))
    ensures var n := Opportunities(env, plan);
      Video(env, plan) == Run(Session(EndOfInput, ShownPrefix(env, plan, n), true), |env.src.frames|, n)
  {
    FirstStopIs(env, plan, Opportunities(env, plan));
  }

  lemma VideoAtFailure(env: Env, plan: Plan, s: nat)
    requires plan.skipFrames >= 1 && env.src.isOpen && s < Opportunities(env, plan) && NoStopBefore(env, plan, s)
    requires Detections(env, plan, s).Err?
    ensures Video(env, plan)
         == Run(Session(DetectFailed(Detections(env, plan, s).error), ShownPrefix(env, plan, s), false),
                (s + 1) * plan.skipFrames, s)
  {
    FirstStopIs(env, plan, s);
  }

  lemma VideoAtQuit(env: Env, plan: Plan, s: nat)
    requires plan.skipFrames >= 1 && env.src.isOpen && s < Opportunities(env, plan) && NoStopBefore(env, plan, s)
    requires Detections(env, plan, s).Ok? && Quits(env.keys(s))
    ensures Video(env, plan)
         == Run(Session(QuitKey, ShownPrefix(env, plan, s) + [ShownFrame(env, plan, s)], true),
                (s + 1) * plan.skipFrames, s + 1)
  {
    FirstStopIs(env, plan, s);
  }

  /** Frame number `m`, a multiple of the skip, is the `j`-th one processed. */
  lemma ProcessedFrameNumber(env: Env, plan: Plan, j: nat, m: nat)
    requires plan.skipFrames >= 1 && 1 <= m <= |env.src.frames| && m % plan.skipFrames == 0
    requires (m - 1) / plan.skipFrames == j
    ensures j < Opportunities(env, plan) && m == (j + 1) * plan.skipFrames && m / plan.skipFrames == j + 1
    ensures InputFrame(env, plan, j) == env.src.frames[m - 1]
  {
    DivStep(m - 1, plan.skipFrames);
    DivMonotone(m, |env.src.frames|, plan.skipFrames);
  }

  lemma ShownFrameIs(env: Env, plan: Plan, j: nat, f: Frame, ds: seq<Detection>)
    requires plan.skipFrames >= 1 && j < Opportunities(env, plan)
    requires f == Prepared(plan, InputFrame(env, plan, j)) && Detections(env, plan, j) == Ok(ds)
    ensures ShownFrame(env, plan, j) == Shown(f, Layout(ds, env.textSize) + FpsMarks(j + 1))
  {
  }

  lemma SkippedFrameNumber(m: nat, k: int)
    requires k >= 1 && 1 <= m && m % k != 0
    ensures m / k == (m - 1) / k
  {
    DivStep(m - 1, k);
  }

  lemma PlanForIs(src: Source, r: real, k: int, frameWidth: int, frameHeight: int, newWidth: int, newHeight: int)
    requires frameWidth == Trunc(src.reportedWidth) && frameHeight == Trunc(src.reportedHeight)
    requires newWidth == Trunc(frameWidth as real * r) && newHeight == Trunc(frameHeight as real * r)
    ensures Plan(r, newWidth, newHeight, k) == PlanFor(src, r, k)
  {
  }

  /** The loop of `process_video_file`, with the frames, the model, the font
      metrics and the keyboard as parameters. */
  method ProcessVideoFile(model: (Frame, real) -> seq<RawResult>, textSize: Caption -> Size, src: Source,
                          keys: nat -> int, resizeFactor: real, skipFrames: int)
    returns (run: Run)
    requires skipFrames >= 1
    ensures run == Video(Env(Detect(model), textSize, src, keys), PlanFor(src, resizeFactor, skipFrames))
  {
    ghost var env := Env(Detect(model), textSize, src, keys);
    if !src.isOpen {
      return Run(Session(OpenFailed, [], false), 0, 0);
    }
    var frameWidth := Trunc(src.reportedWidth);
    var frameHeight := Trunc(src.reportedHeight);
    var newWidth := Trunc(frameWidth as real * resizeFactor);
    var newHeight := Trunc(frameHeight as real * resizeFactor);
    ghost var plan := Plan(resizeFactor, newWidth, newHeight, skipFrames);
    PlanForIs(src, resizeFactor, skipFrames, frameWidth, frameHeight, newWidth, newHeight);

    var frameCount := 0;
    var processedFrames := 0;
    var shown: seq<Shown> := [];
    var outcome := EndOfInput;
    while true
      invariant 0 <= frameCount <= |src.frames|
      invariant processedFrames == frameCount / skipFrames <= Opportunities(env, plan)
      invariant NoStopBefore(env, plan, processedFrames)
      invariant shown == ShownPrefix(env, plan, processedFrames)
      decreases |src.frames| - frameCount
    {
      if frameCount == |src.frames| {
        // the read fails: end of the video
        VideoAtEnd(env, plan);
        break;
      }
      var frame := src.frames[frameCount];
      frameCount := frameCount + 1;
      if frameCount % skipFrames != 0 {
        SkippedFrameNumber(frameCount, skipFrames);
        continue;
      }
      ghost var j := processedFrames;
      ProcessedFrameNumber(env, plan, j, frameCount);
      if resizeFactor != 1.0 {
        frame := Resize(frame, newWidth, newHeight);
      }
      assert frame == Prepared(plan, InputFrame(env, plan, j));
      var detections := DetectObjects(model, frame);
      assert detections == Detections(env, plan, j);
      if detections.Err? {
        // the KeyError leaves the function before `cap.release()`
        VideoAtFailure(env, plan, j);
        return Run(Session(DetectFailed(detections.error), shown, false), frameCount, processedFrames);
      }
      var canvas := new Canvas(frame);
      DrawDetections(canvas, detections.value, textSize);
      ghost var drawn := Layout(detections.value, textSize);
      assert canvas.marks == drawn;
      processedFrames := processedFrames + 1;
      if processedFrames % FpsInterval == 0 {
        canvas.PutText(FpsCaption, Point(10, 30), 1.0, FpsColor, 2);
      }
      assert canvas.marks == drawn + FpsMarks(processedFrames);
      ShownFrameIs(env, plan, j, frame, detections.value);
      shown := shown + [Shown(canvas.frame, canvas.marks)];
      if Quits(keys(processedFrames - 1)) {
        VideoAtQuit(env, plan, j);
        outcome := QuitKey;
        break;
      }
      ShownPrefixStep(env, plan, j);
    }
    // cap.release()
    run := Run(Session(outcome, shown, true), frameCount, processedFrames);
  }

  /** The `j`-th frame shown is frame number `(j + 1) * skip` of the video,
      prepared for the detector, with its own detections drawn on it and the
      rate stamp after every tenth. */
  lemma ShownFrames(env: Env, plan: Plan, j: nat)
    requires plan.skipFrames >= 1 && j < |Video(env, plan).session.shown|
    ensures (j + 1) * plan.skipFrames <= |env.src.frames|
    ensures Detections(env, plan, j).Ok?
    ensures Video(env, plan).session.shown[j]
         == Shown(Prepared(plan, env.src.frames[(j + 1) * plan.skipFrames - 1]),
                  Layout(Detections(env, plan, j).value, env.textSize) + FpsMarks(j + 1))
  {
    MultipleWithin(|env.src.frames|, plan.skipFrames, j);
    var s := FirstStop(env, plan);
    if j < s {
      assert Video(env, plan).session.shown[j] == ShownPrefix(env, plan, s)[j];
    }
  }

  /** With a factor other than 1.0 every frame shown is resized to the one
      size computed before the loop; with 1.0 it is the frame as read. */
  lemma ShownFramesResized(env: Env, plan: Plan, j: nat)
    requires plan.skipFrames >= 1 && j < |Video(env, plan).session.shown|
    ensures (j + 1) * plan.skipFrames <= |env.src.frames|
    ensures var f := Video(env, plan).session.shown[j].frame;
      var read := env.src.frames[(j + 1) * plan.skipFrames - 1];
      if plan.resizeFactor != 1.0 then
        f.width == plan.newWidth && f.height == plan.newHeight && f.scene == read.scene
      else f == read
  {
    ShownFrames(env, plan, j);
  }

  /** Every frame read whose number is a multiple of the skip is processed,
      and no other: the frames processed (counting the one whose detection
      failed) are as many as the multiples among the frames read. The loop
      reads the whole video unless it is stopped, and it stops only on a
      processed frame. */
  lemma ProcessedFramesCounted(env: Env, plan: Plan)
    requires plan.skipFrames >= 1 && env.src.isOpen
    ensures var run := Video(env, plan);
      run.processedFrames + (if run.session.outcome.DetectFailed? then 1 else 0)
        == CountMultiples(run.frameCount, plan.skipFrames)
    ensures var run := Video(env, plan);
      if run.session.outcome.EndOfInput? then run.frameCount == |env.src.frames|
      else run.frameCount % plan.skipFrames == 0
  {
    var run := Video(env, plan);
    var k := plan.skipFrames;
    CountMultiplesQuotient(run.frameCount, k);
    var s := FirstStop(env, plan);
    if s < Opportunities(env, plan) {
      DivModUnique((s + 1) * k, k, s + 1, 0);
    }
  }

  /** The loop reaches the end of the video exactly when no processed frame
      fails its detection and `q` is never pressed; it then shows every
      frame it can process. */
  lemma VideoEndsAtEnd(env: Env, plan: Plan)
    requires plan.skipFrames >= 1 && env.src.isOpen
    ensures Video(env, plan).session.outcome.EndOfInput? <==> NoStopBefore(env, plan, Opportunities(env, plan))
    ensures Video(env, plan).session.outcome.EndOfInput? ==> |Video(env, plan).session.shown| == Opportunities(env, plan)
  {
    if NoStopBefore(env, plan, Opportunities(env, plan)) {
      FirstStopIs(env, plan, Opportunities(env, plan));
    }
  }

  /** When the loop stops on `q`, the key was polled after the last frame
      shown, and no earlier poll returned `q`. */
  lemma VideoEndsOnQuit(env: Env, plan: Plan)
    requires plan.skipFrames >= 1 && Video(env, plan).session.outcome.QuitKey?
    ensures var shown := Video(env, plan).session.shown;
      0 < |shown| && Quits(env.keys(|shown| - 1)) && NoStopBefore(env, plan, |shown| - 1)
  {
  }

  /** When a detection fails, the frame after the last one shown is the one
      whose detection failed, with the class id reported; nothing before it
      stopped the loop. */
  lemma VideoEndsOnFailure(env: Env, plan: Plan)
    requires plan.skipFrames >= 1 && Video(env, plan).session.outcome.DetectFailed?
    ensures var run := Video(env, plan);
      |run.session.shown| < Opportunities(env, plan) &&
      Detections(env, plan, |run.session.shown|) == Err(run.session.outcome.classId) &&
      NoStopBefore(env, plan, |run.session.shown|)
  {
  }

  predicate Stamped(s: Shown) {
    FpsMark in s.marks
  }

  /** The rate is written on a shown frame exactly when it is the tenth,
      twentieth, ... frame processed. */
  lemma StampedEveryTenth(env: Env, plan: Plan, j: nat)
    requires plan.skipFrames >= 1 && j < |Video(env, plan).session.shown|
    ensures Stamped(Video(env, plan).session.shown[j]) <==> (j + 1) % FpsInterval == 0
  {
    ShownFrames(env, plan, j);
    LayoutWritesOnlyLabels(Detections(env, plan, j).value, env.textSize);
  }

  /** How many of the frames in `shown` carry the rate. */
  function StampedCount(shown: seq<Shown>): nat {
    if shown == [] then 0
    else StampedCount(shown[..|shown| - 1]) + (if Stamped(shown[|shown| - 1]) then 1 else 0)
  }

  lemma {:induction false} StampedCountOfPattern(shown: seq<Shown>)
    requires forall j :: 0 <= j < |shown| ==> (Stamped(shown[j]) <==> (j + 1) % FpsInterval == 0)
    ensures StampedCount(shown) == CountMultiples(|shown|, FpsInterval)
  {
    if shown != [] {
      var init := shown[..|shown| - 1];
      assert forall j :: 0 <= j < |init| ==> init[j] == shown[j];
      StampedCountOfPattern(init);
    }
  }

  /** One shown frame in ten carries the rate: of `n` frames shown,
      `n / 10` do. */
  lemma StampedCountIsTenth(env: Env, plan: Plan)
    requires plan.skipFrames >= 1
    ensures StampedCount(Video(env, plan).session.shown) == |Video(env, plan).session.shown| / FpsInterval
  {
    var shown := Video(env, plan).session.shown;
    forall j | 0 <= j < |shown|
      ensures Stamped(shown[j]) <==> (j + 1) % FpsInterval == 0
    {
      StampedEveryTenth(env, plan, j);
    }
    StampedCountOfPattern(shown);
    CountMultiplesQuotient(|shown|, FpsInterval);
  }

  /** One side of the processing size: `int(int(length) * r)`. */
  lemma ScaledSideBounds(length: real, r: real)
    requires 0.1 <= r <= 1.0 && 0.0 <= length
    ensures 0 <= Trunc(Trunc(length) as real * r) <= Trunc(length)
  {
    var n := Trunc(length);
    var scaled := n as real * r;
    assert 0.0 <= scaled <= n as real by {
      assert 0 <= n;
    }
    TruncMonotone(0.0, scaled);
    TruncMonotone(scaled, n as real);
    TruncOfInteger(0);
    TruncOfInteger(n);
  }

  /** With the factor clamped into [0.1, 1.0] and a non-negative reported
      size, the processing size is never larger than the reported one and
      never negative. */
  lemma ProcessingSizeBounds(src: Source, r: real)
    requires 0.1 <= r <= 1.0 && 0.0 <= src.reportedWidth && 0.0 <= src.reportedHeight
    ensures 0 <= ProcessingWidth(src, r) <= Trunc(src.reportedWidth)
    ensures 0 <= ProcessingHeight(src, r) <= Trunc(src.reportedHeight)
  {
    ScaledSideBounds(src.reportedWidth, r);
    ScaledSideBounds(src.reportedHeight, r);
  }
}
