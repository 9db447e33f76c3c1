/** `ObjectDetector.draw_detections` as the list of drawing calls it makes on
    the frame: per detection the box outline, the filled label background and
    the label text. Pixels, fonts and the formatting of numbers are not
    modelled; the size of a rendered text is a parameter (`cv2.getTextSize`). */
module Overlay {
  import opened Frames
  import opened Detector

  datatype Point = Point(x: int, y: int)

  /** A colour in OpenCV's blue-green-red order. */
  datatype Color = Color(blue: int, green: int, red: int)

  const BoxColor: Color := Color(255, 0, 0)
  const TextColor: Color := Color(255, 255, 255)
  const FpsColor: Color := Color(0, 255, 0)

  /** Outline width of the box; a negative width fills the rectangle. */
  const BoxThickness: int := 3
  const Filled: int := -1

  const LabelScale: real := 0.8
  const LabelThickness: int := 2

  /** What a text says: `f"{label}: {confidence:.2f}"` for a detection, or the
      frame-rate line, whose number comes from the clock. */
  datatype Caption = LabelCaption(name: string, confidence: real) | FpsCaption

  /** The width and height `cv2.getTextSize` reports for a caption. */
  datatype Size = Size(width: nat, height: nat)

  /** One drawing call: `cv2.rectangle` or `cv2.putText` (whose origin is the
      bottom-left corner of the text). */
  datatype Mark =
    | Rectangle(corner1: Point, corner2: Point, color: Color, thickness: int)
    | Text(caption: Caption, origin: Point, scale: real, color: Color, thickness: int)

  /** The three calls for one detection. */
  function BoxMarks(d: Detection, textSize: Caption -> Size): seq<Mark> {
    var b := d.bbox;
    var caption := LabelCaption(d.displayName, d.confidence);
    var size := textSize(caption);
    [ Rectangle(Point(b.x, b.y), Point(b.x + b.w, b.y + b.h), BoxColor, BoxThickness),
      Rectangle(Point(b.x, b.y - size.height - 10), Point(b.x + size.width, b.y), BoxColor, Filled),
      Text(caption, Point(b.x, b.y - 5), LabelScale, TextColor, LabelThickness) ]
  }

  /** The calls for a list of detections, in list order. */
  function Layout(ds: seq<Detection>, textSize: Caption -> Size): seq<Mark> {
    if ds == [] then [] else BoxMarks(ds[0], textSize) + Layout(ds[1..], textSize)
  }

  /** A frame being drawn on: the frame as read, and the calls made on it so
      far. The drawing functions of OpenCV change the frame in place. */
  class Canvas {
    const frame: Frame
    var marks: seq<Mark>

    constructor (f: Frame)
      ensures frame == f && marks == []
    {
      frame := f;
      marks := [];
    }

    /** `cv2.rectangle(image, corner1, corner2, color, thickness)`. */
    method DrawRectangle(corner1: Point, corner2: Point, color: Color, thickness: int)
      modifies this
      ensures marks == old(marks) + [Rectangle(corner1, corner2, color, thickness)]
    {
      marks := marks + [Rectangle(corner1, corner2, color, thickness)];
    }

    /** `cv2.putText(image, text, origin, font, scale, color, thickness)`. */
    method PutText(caption: Caption, origin: Point, scale: real, color: Color, thickness: int)
      modifies this
      ensures marks == old(marks) + [Text(caption, origin, scale, color, thickness)]
    {
      marks := marks + [Text(caption, origin, scale, color, thickness)];
    }
  }

  /** `draw_detections(image, detections)`: draws on `image` in place. */
  method DrawDetections(image: Canvas, detections: seq<Detection>, textSize: Caption -> Size)
    modifies image
    ensures image.marks == old(image.marks) + Layout(detections, textSize)
  {
    var i := 0;
    while i < |detections|
      invariant 0 <= i <= |detections|
      invariant image.marks == old(image.marks) + Layout(detections[..i], textSize)
    {
      var obj := detections[i];
      var b := obj.bbox;
      var x, y, w, h := b.x, b.y, b.w, b.h;
      ghost var before := image.marks;
      image.DrawRectangle(Point(x, y), Point(x + w, y + h), BoxColor, BoxThickness);
      var caption := LabelCaption(obj.displayName, obj.confidence);
      var size := textSize(caption);
      var textWidth, textHeight := size.width, size.height;
      image.DrawRectangle(Point(x, y - textHeight - 10), Point(x + textWidth, y), BoxColor, Filled);
      image.PutText(caption, Point(x, y - 5), LabelScale, TextColor, LabelThickness);
      assert image.marks == before + BoxMarks(obj, textSize);
      LayoutAppend(detections[..i], obj, textSize);
      AppendAssociates(old(image.marks), Layout(detections[..i], textSize), BoxMarks(obj, textSize));
      assert detections[..i + 1] == detections[..i] + [obj];
      i := i + 1;
    }
    assert detections[..i] == detections;
  }

  lemma AppendAssociates<T>(a: seq<T>, b: seq<T>, c: seq<T>)
    ensures (a + b) + c == a + (b + c)
  {
  }

  lemma {:induction false} LayoutAppend(ds: seq<Detection>, d: Detection, textSize: Caption -> Size)
    ensures Layout(ds + [d], textSize) == Layout(ds, textSize) + BoxMarks(d, textSize)
  {
    if ds == [] {
      assert Layout([d], textSize) == BoxMarks(d, textSize) + Layout([], textSize);
    } else {
      assert (ds + [d])[1..] == ds[1..] + [d];
      LayoutAppend(ds[1..], d, textSize);
    }
  }

  /** Three calls per detection, and the calls for detection `i` are its own
      three, at positions 3i to 3i + 2. */
  lemma {:induction false} LayoutAt(ds: seq<Detection>, textSize: Caption -> Size, i: nat)
    requires i < |ds|
    ensures |Layout(ds, textSize)| == 3 * |ds|
    ensures Layout(ds, textSize)[3 * i..3 * i + 3] == BoxMarks(ds[i], textSize)
  {
    if i == 0 {
      if |ds| > 1 {
        LayoutAt(ds[1..], textSize, 0);
      }
    } else {
      LayoutAt(ds[1..], textSize, i - 1);
      assert ds[1..][i - 1] == ds[i];
    }
  }

  /** Where the three calls draw: the outline runs from the record's corner
      `(x, y)` to `(x + w, y + h)`; the filled label background sits on the
      top edge of the box, starts at its left edge, and is as wide as the
      text and ten units taller; the text starts at `(x, y - 5)`, inside the
      background. Box and background are blue, the text white. */
  lemma LabelPlacement(d: Detection, textSize: Caption -> Size)
    ensures var m := BoxMarks(d, textSize);
      var size := textSize(LabelCaption(d.displayName, d.confidence));
      |m| == 3 && m[0].Rectangle? && m[1].Rectangle? && m[2].Text? &&
      m[0].corner1 == Point(d.bbox.x, d.bbox.y) &&
      m[0].corner2 == Point(d.bbox.x + d.bbox.w, d.bbox.y + d.bbox.h) &&
      m[1].corner1 == Point(d.bbox.x, d.bbox.y - size.height - 10) &&
      m[1].corner2 == Point(d.bbox.x + size.width, d.bbox.y) &&
      m[2].origin == Point(d.bbox.x, d.bbox.y - 5) &&
      m[1].corner2.y == m[0].corner1.y &&
      m[1].corner1.x == m[0].corner1.x &&
      m[1].corner2.x - m[1].corner1.x == size.width &&
      m[1].corner2.y - m[1].corner1.y == size.height + 10 &&
      m[2].origin.x == m[0].corner1.x &&
      m[1].corner1.y < m[2].origin.y < m[1].corner2.y &&
      m[1].thickness < 0 && m[0].thickness > 0 &&
      m[0].color == BoxColor && m[1].color == BoxColor && m[2].color == TextColor
  {
  }

  /** Nothing is clamped to the frame: for a box closer to the top than the
      label is tall, the label background starts above the frame. */
  lemma LabelNotClamped(d: Detection, textSize: Caption -> Size)
    requires d.bbox.y < textSize(LabelCaption(d.displayName, d.confidence)).height + 10
    ensures BoxMarks(d, textSize)[1].corner1.y < 0
  {
  }

  /** Every text `draw_detections` writes is a detection's label: it never
      writes the frame-rate line. */
  lemma {:induction false} LayoutWritesOnlyLabels(ds: seq<Detection>, textSize: Caption -> Size)
    ensures forall m :: m in Layout(ds, textSize) && m.Text? ==> m.caption.LabelCaption?
  {
    if ds != [] {
      LayoutWritesOnlyLabels(ds[1..], textSize);
    }
  }
}
