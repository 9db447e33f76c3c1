/** The post-processing of `ObjectDetector.detect_objects`: the raw boxes the
    model returns become detection records with a truncated integer box and a
    translated label. The model itself is a parameter. */
module Detector {
  import opened Wrappers
  import opened Numeric
  import opened Labels

  /** `self.confidence_threshold`, passed to the model call. */
  const ConfidenceThreshold: real := 0.5

  /** One box of a model result: corners `xyxy[0]`, class `cls[0]` and
      confidence `conf[0]`, all floats. */
  datatype RawBox = RawBox(x1: real, y1: real, x2: real, y2: real, cls: real, conf: real)

  /** One model result: its boxes and, for each class id, its class name. */
  datatype RawResult = RawResult(boxes: seq<RawBox>, names: map<int, string>)

  /** A box as top-left corner, width and height. */
  datatype BBox = BBox(x: int, y: int, w: int, h: int)

  /** One output record: `label` (displayName), `original_label`
      (originalName), `confidence` and `bbox`. */
  datatype Detection = Detection(displayName: string, originalName: string, confidence: real, bbox: BBox)

  /** `int(box.cls[0].item())`. */
  function ClassId(b: RawBox): int {
    Trunc(b.cls)
  }

  /** A raw box together with the class-name table of the result it
      belongs to. */
  datatype Tagged = Tagged(box: RawBox, names: map<int, string>)

  predicate Known(t: Tagged) {
    ClassId(t.box) in t.names
  }

  function TagAll(boxes: seq<RawBox>, names: map<int, string>): (ts: seq<Tagged>)
    ensures |ts| == |boxes|
    ensures forall k :: 0 <= k < |boxes| ==> ts[k] == Tagged(boxes[k], names)
  {
    seq(|boxes|, k requires 0 <= k < |boxes| => Tagged(boxes[k], names))
  }

  /** All boxes of all results, in the order the two loops visit them. */
  function Flatten(results: seq<RawResult>): seq<Tagged> {
    if results == [] then []
    else
      var last := results[|results| - 1];
      Flatten(results[..|results| - 1]) + TagAll(last.boxes, last.names)
  }

  /** The number of boxes over all results. */
  function BoxCount(results: seq<RawResult>): nat {
    if results == [] then 0 else BoxCount(results[..|results| - 1]) + |results[|results| - 1].boxes|
  }

  /** The record for one box whose class name is `className`. */
  function ToDetection(b: RawBox, className: string): Detection {
    Detection(Translate(className), className, b.conf,
              BBox(Trunc(b.x1), Trunc(b.y1), Trunc(b.x2 - b.x1), Trunc(b.y2 - b.y1)))
  }

  function Convert(t: Tagged): Detection
    requires Known(t)
  {
    ToDetection(t.box, t.names[ClassId(t.box)])
  }

  predicate AllKnown(ts: seq<Tagged>) {
    forall k :: 0 <= k < |ts| ==> Known(ts[k])
  }

  /** The position of the first box whose class id is missing from its
      names table. */
  function FirstUnknown(ts: seq<Tagged>): (i: nat)
    requires !AllKnown(ts)
    ensures i < |ts| && !Known(ts[i])
    ensures forall k :: 0 <= k < i ==> Known(ts[k])
  {
    if !Known(ts[0]) then 0 else 1 + FirstUnknown(ts[1..])
  }

  /** What `detect_objects` returns for the model output `results`: one record
      per box, in visiting order, or the first class id whose name lookup
      raises `KeyError`. */
  function Normalize(results: seq<RawResult>): Result<seq<Detection>, int> {
    var ts := Flatten(results);
    if AllKnown(ts) then Ok(seq(|ts|, k requires 0 <= k < |ts| => Convert(ts[k])))
    else Err(ClassId(ts[FirstUnknown(ts)].box))
  }

  /** Normalize succeeds with `ds` exactly when every box's class id is known
      and `ds` holds, position by position, the record of each box. */
  lemma NormalizeOkWhen(results: seq<RawResult>, ds: seq<Detection>)
    requires |ds| == |Flatten(results)|
    requires forall k :: 0 <= k < |ds| ==> Known(Flatten(results)[k]) && ds[k] == Convert(Flatten(results)[k])
    ensures Normalize(results) == Ok(ds)
  {
    var ts := Flatten(results);
    assert AllKnown(ts);
    assert ds == seq(|ts|, k requires 0 <= k < |ts| => Convert(ts[k]));
  }

  /** Normalize fails with the class id of the first box whose id is missing. */
  lemma NormalizeErrWhen(results: seq<RawResult>, m: nat)
    requires m < |Flatten(results)| && !Known(Flatten(results)[m])
    requires forall k :: 0 <= k < m ==> Known(Flatten(results)[k])
    ensures Normalize(results) == Err(ClassId(Flatten(results)[m].box))
  {
    var ts := Flatten(results);
    assert !AllKnown(ts);
    var i := FirstUnknown(ts);
    assert !(i < m) && !(m < i);
  }

  lemma {:induction false} FlattenAppend(a: seq<RawResult>, b: seq<RawResult>)
    ensures Flatten(a + b) == Flatten(a) + Flatten(b)
  {
    if b == [] {
      assert a + b == a;
    } else {
      var front, last := b[..|b| - 1], b[|b| - 1];
      assert (a + b)[..|a + b| - 1] == a + front;
      assert (a + b)[|a + b| - 1] == last;
      FlattenAppend(a, front);
      var tail := TagAll(last.boxes, last.names);
      calc {
        Flatten(a + b);
        Flatten(a + front) + tail;
        (Flatten(a) + Flatten(front)) + tail;
        Flatten(a) + (Flatten(front) + tail);
        Flatten(a) + Flatten(b);
      }
    }
  }

  /** The boxes of result `i` sit in the flattened sequence right after those
      of the results before it. */
  lemma FlattenAt(results: seq<RawResult>, i: nat)
    requires i < |results|
    ensures |Flatten(results[..i + 1])| == |Flatten(results[..i])| + |results[i].boxes|
    ensures |Flatten(results[..i + 1])| <= |Flatten(results)|
    ensures forall k :: 0 <= k < |Flatten(results[..i])| ==> Flatten(results)[k] == Flatten(results[..i])[k]
    ensures forall k :: 0 <= k < |results[i].boxes| ==>
      Flatten(results)[|Flatten(results[..i])| + k] == Tagged(results[i].boxes[k], results[i].names)
  {
    FlattenPrefixStep(results, i);
    assert results == results[..i + 1] + results[i + 1..];
    FlattenAppend(results[..i + 1], results[i + 1..]);
    var whole, before := Flatten(results), Flatten(results[..i]);
    var mine := TagAll(results[i].boxes, results[i].names);
    assert whole == before + mine + Flatten(results[i + 1..]);
    forall k | 0 <= k < |mine| ensures whole[|before| + k] == mine[k] {
    }
  }

  lemma FlattenPrefixStep(results: seq<RawResult>, i: nat)
    requires i < |results|
    ensures Flatten(results[..i + 1]) == Flatten(results[..i]) + TagAll(results[i].boxes, results[i].names)
  {
    assert results[..i + 1][..i] == results[..i];
  }

  /** Appending the record of the next box keeps the records in step with
      the boxes. */
  lemma RecordAppended(flat: seq<Tagged>, detected: seq<Detection>, record: Detection)
    requires |detected| < |flat| && Known(flat[|detected|]) && record == Convert(flat[|detected|])
    requires forall k :: 0 <= k < |detected| ==> Known(flat[k]) && detected[k] == Convert(flat[k])
    ensures forall k :: 0 <= k < |detected| + 1 ==> Known(flat[k]) && (detected + [record])[k] == Convert(flat[k])
  {
  }

  /** `detect_objects`: runs the model at the confidence threshold, then
      appends one record per box, result by result and box by box. */
  method DetectObjects<F>(model: (F, real) -> seq<RawResult>, image: F)
    returns (r: Result<seq<Detection>, int>)
    ensures r == Normalize(model(image, ConfidenceThreshold))
  {
    var results := model(image, ConfidenceThreshold);
    ghost var flat := Flatten(results);
    var detected: seq<Detection> := [];
    var i := 0;
    while i < |results|
      invariant 0 <= i <= |results|
      invariant |detected| == |Flatten(results[..i])| <= |flat|
      invariant forall k :: 0 <= k < |detected| ==> Known(flat[k]) && detected[k] == Convert(flat[k])
    {
      var boxes, names := results[i].boxes, results[i].names;
      FlattenAt(results, i);
      ghost var base := |detected|;
      var j := 0;
      while j < |boxes|
        invariant 0 <= j <= |boxes|
        invariant |detected| == base + j
        invariant forall k :: 0 <= k < |detected| ==> Known(flat[k]) && detected[k] == Convert(flat[k])
      {
        var box := boxes[j];
        var classId := Trunc(box.cls);
        if classId !in names {
          assert flat[base + j] == Tagged(box, names);
          NormalizeErrWhen(results, base + j);
          return Err(classId);
        }
        var className := names[classId];
        var translated := Translate(className);
        var x, y := Trunc(box.x1), Trunc(box.y1);
        var w, h := Trunc(box.x2 - box.x1), Trunc(box.y2 - box.y1);
        var record := Detection(translated, className, box.conf, BBox(x, y, w, h));
        assert flat[base + j] == Tagged(box, names);
        assert record == Convert(flat[base + j]);
        RecordAppended(flat, detected, record);
        detected := detected + [record];
        j := j + 1;
      }
      i := i + 1;
    }
    assert results[..i] == results;
    NormalizeOkWhen(results, detected);
    r := Ok(detected);
  }

  // Properties of the records.

  lemma {:induction false} FlattenLength(results: seq<RawResult>)
    ensures |Flatten(results)| == BoxCount(results)
  {
    if results != [] {
      FlattenLength(results[..|results| - 1]);
    }
  }

  /** Exactly one record per raw box. */
  lemma NormalizeCount(results: seq<RawResult>)
    requires Normalize(results).Ok?
    ensures |Normalize(results).value| == BoxCount(results)
  {
    FlattenLength(results);
  }

  /** The record of box `j` of result `i` comes right after the records of the
      boxes of the earlier results, and it is that box's conversion. */
  lemma NormalizeOrder(results: seq<RawResult>, i: nat, j: nat)
    requires i < |results| && j < |results[i].boxes|
    requires Normalize(results).Ok?
    ensures BoxCount(results[..i]) + j < |Normalize(results).value|
    ensures var b := results[i].boxes[j];
      ClassId(b) in results[i].names &&
      Normalize(results).value[BoxCount(results[..i]) + j] == ToDetection(b, results[i].names[ClassId(b)])
  {
    FlattenAt(results, i);
    FlattenLength(results[..i]);
    assert Flatten(results)[BoxCount(results[..i]) + j] == Tagged(results[i].boxes[j], results[i].names);
  }

  /** Every class id of every box is in its result's names table. */
  predicate AllClassesNamed(results: seq<RawResult>) {
    forall i, j :: 0 <= i < |results| && 0 <= j < |results[i].boxes| ==>
      ClassId(results[i].boxes[j]) in results[i].names
  }

  lemma {:induction false} AllKnownFlatten(results: seq<RawResult>)
    ensures AllKnown(Flatten(results)) <==> AllClassesNamed(results)
  {
    if results != [] {
      var n := |results| - 1;
      var front, last := results[..n], results[n];
      AllKnownFlatten(front);
      var tail := TagAll(last.boxes, last.names);
      assert Flatten(results) == Flatten(front) + tail;
      if AllClassesNamed(results) {
        assert AllClassesNamed(front) by {
          forall i, j | 0 <= i < |front| && 0 <= j < |front[i].boxes|
            ensures ClassId(front[i].boxes[j]) in front[i].names
          {
            assert front[i] == results[i];
          }
        }
        assert AllKnown(tail) by {
          forall k | 0 <= k < |tail| ensures Known(tail[k]) {
            assert ClassId(results[n].boxes[k]) in results[n].names;
          }
        }
      }
      if AllKnown(Flatten(results)) {
        assert AllKnown(Flatten(front)) by {
          forall k | 0 <= k < |Flatten(front)| ensures Known(Flatten(front)[k]) {
            assert Flatten(results)[k] == Flatten(front)[k];
          }
        }
        forall i, j | 0 <= i < |results| && 0 <= j < |results[i].boxes|
          ensures ClassId(results[i].boxes[j]) in results[i].names
        {
          if i < n {
            assert front[i] == results[i];
          } else {
            assert Flatten(results)[|Flatten(front)| + j] == tail[j];
          }
        }
      }
    }
  }

  /** The call succeeds exactly when every box's class id has a name. */
  lemma NormalizeOkIff(results: seq<RawResult>)
    ensures Normalize(results).Ok? <==> AllClassesNamed(results)
  {
    AllKnownFlatten(results);
  }

  /** Every box's confidence is at least `t`. */
  predicate AllConfident(results: seq<RawResult>, t: real) {
    forall i, j :: 0 <= i < |results| && 0 <= j < |results[i].boxes| ==> results[i].boxes[j].conf >= t
  }

  lemma {:induction false} FlattenConfident(results: seq<RawResult>, t: real)
    requires AllConfident(results, t)
    ensures forall k :: 0 <= k < |Flatten(results)| ==> Flatten(results)[k].box.conf >= t
  {
    if results != [] {
      var n := |results| - 1;
      var front := results[..n];
      assert AllConfident(front, t) by {
        forall i, j | 0 <= i < |front| && 0 <= j < |front[i].boxes| ensures front[i].boxes[j].conf >= t {
          assert front[i] == results[i];
        }
      }
      FlattenConfident(front, t);
      assert Flatten(results) == Flatten(front) + TagAll(results[n].boxes, results[n].names);
    }
  }

  /** No filtering happens here: the threshold is left to the model, and each
      record carries its box's confidence unchanged, so a model that honours
      the threshold yields records that all meet it. */
  lemma ConfidencePassesThrough(results: seq<RawResult>, t: real)
    requires AllConfident(results, t)
    requires Normalize(results).Ok?
    ensures forall d :: d in Normalize(results).value ==> d.confidence >= t
  {
    FlattenConfident(results, t);
  }

  /** The corner is truncated toward zero: it moves by less than one unit,
      toward the origin for a non-negative coordinate and away from it for a
      negative one. */
  lemma CornerTruncated(b: RawBox, className: string)
    ensures var d := ToDetection(b, className).bbox;
      (b.x1 >= 0.0 ==> d.x as real <= b.x1 < d.x as real + 1.0) &&
      (b.x1 < 0.0 ==> d.x as real - 1.0 < b.x1 <= d.x as real) &&
      (b.y1 >= 0.0 ==> d.y as real <= b.y1 < d.y as real + 1.0) &&
      (b.y1 < 0.0 ==> d.y as real - 1.0 < b.y1 <= d.y as real)
  {
  }

  /** The width is positive only for boxes at least one unit wide, and the
      conversion does not promise a positive width. */
  lemma WidthSign(b: RawBox, className: string)
    ensures var d := ToDetection(b, className).bbox;
      (d.w > 0 <==> b.x2 - b.x1 >= 1.0) &&
      (d.h > 0 <==> b.y2 - b.y1 >= 1.0) &&
      (b.x2 >= b.x1 ==> d.w >= 0) &&
      (b.y2 >= b.y1 ==> d.h >= 0)
  {
  }

  /** The width truncates the difference of the corners, which is not the
      difference of the truncated corners: the right edge can land one unit
      left of `int(x2)`. */
  lemma RightEdgeNotTruncatedCorner()
    ensures var b := RawBox(0.5, 0.5, 1.25, 1.25, 0.0, 0.9);
      var d := ToDetection(b, "person").bbox;
      d.x + d.w == 0 && Trunc(b.x2) == 1
  {
  }

  /** A record's label is already in the display vocabulary. */
  lemma DisplayNameStable(b: RawBox, className: string)
    ensures var d := ToDetection(b, className);
      d.originalName == className && Translate(d.displayName) == d.displayName
  {
    TranslateIdempotent(className);
  }
}
