/** What the two display loops, `process_video_file` and `process_webcam`,
    have in common: the world they talk to, how a loop ends, and what it
    shows. */
module Capture {
  import opened Wrappers
  import opened Frames
  import opened Detector
  import opened Overlay

  /** Everything outside the loop: what `detector.detect_objects` returns
      for a frame, the font metrics, the opened capture and the keyboard.
      `keys(p)` is what the `p`-th call of `cv2.waitKey(1)` returns (counting
      from zero; -1 when no key is pressed). */
  datatype Env = Env(detect: Frame -> Result<seq<Detection>, int>, textSize: Caption -> Size, src: Source, keys: nat -> int)

  /** `detect_objects` of a detector whose model is `model`, as a function of
      the frame; `DetectObjects` computes it. */
  function Detect(model: (Frame, real) -> seq<RawResult>): Frame -> Result<seq<Detection>, int> {
    f => Normalize(model(f, ConfidenceThreshold))
  }

  /** How a loop ends: the capture did not open; a read failed (end of the
      video, or a webcam that stopped); `q` was pressed; or a class-name
      lookup raised `KeyError`, which leaves the function. */
  datatype Outcome = OpenFailed | EndOfInput | QuitKey | DetectFailed(classId: int)

  /** One `cv2.imshow` call: the frame and what was drawn on it. */
  datatype Shown = Shown(frame: Frame, marks: seq<Mark>)

  /** What a loop does as seen from outside: how it ended, the frames it
      showed in order, and whether it reached `cap.release()`. */
  datatype Session = Session(outcome: Outcome, shown: seq<Shown>, released: bool)

  /** `ord('q')`. */
  const QuitCode: int := 113

  /** `cv2.waitKey(1) & 0xFF == ord('q')`: only the low byte of the key code
      counts (Dafny's `%` is never negative, like `& 0xFF`). */
  predicate Quits(code: int) {
    code % 256 == QuitCode
  }

  /** The key codes that quit are those whose low byte is that of `q`; the
      "no key" code -1 and an upper-case `Q` do not quit. */
  lemma QuitsLowByte(code: int)
    ensures Quits(code) <==> exists m: int :: code == QuitCode + 256 * m
    ensures !Quits(-1) && !Quits('Q' as int) && Quits('q' as int)
  {
    if Quits(code) {
      assert code == QuitCode + 256 * (code / 256);
    }
  }

  /** The position of the first `true`, or the length when there is none. */
  function FirstTrue(bs: seq<bool>): (s: nat)
    ensures s <= |bs|
    ensures forall i :: 0 <= i < s ==> !bs[i]
    ensures s < |bs| ==> bs[s]
  {
    if bs == [] || bs[0] then 0 else 1 + FirstTrue(bs[1..])
  }
}
