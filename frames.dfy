/** The video source as the processing loops see it: the frames a capture
    delivers before its first failed read, and the resize of a frame. */
module Frames {

  /** One frame: its size and the scene it shows. Pixels are not modelled;
      `scene` tells frames with different content apart, and a resized frame
      keeps the scene of the frame it came from. */
  datatype Frame = Frame(width: int, height: int, scene: nat)

  /** A `cv2.VideoCapture`: whether it opened, the frame size it reports
      (`CAP_PROP_FRAME_WIDTH`, `CAP_PROP_FRAME_HEIGHT`, floats), and the frames
      `read()` returns before it first fails. */
  datatype Source = Source(isOpen: bool, reportedWidth: real, reportedHeight: real, frames: seq<Frame>)

  /** `cv2.resize(frame, (width, height))`. */
  function Resize(f: Frame, width: int, height: int): (g: Frame)
    ensures g.width == width && g.height == height && g.scene == f.scene
  {
    Frame(width, height, f.scene)
  }
}
