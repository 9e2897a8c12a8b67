/**
 * The `process_frame` Socket.IO handler of the Flask backend: checks the
 * payload, strips a data-URL header, decodes and opens the image, asks the
 * detection model for boxes, converts each `[ymin, xmin, ymax, xmax]` box on
 * the 0-1000 scale to a fractional `{x, y, width, height}` record and emits
 * exactly one event. Base64 decoding, PIL and the model call are foreign:
 * they are parameters here.
 */
module FrameHandler {
  import opened Wrappers
  import opened Boxes
  import opened DataUrl

  /** The payload fields the handler acts on (`width`, `height` and
      `cameraFacing` are only logged). `None` is a missing key. */
  datatype Payload = Payload(image: Option<string>, timestamp: Option<int>)

  /** One entry of the `detection_result` list, in fractions of the frame. */
  datatype Detection = Detection(x: real, y: real, width: real, height: real, name: string, confidence: real)

  /** What the handler emits. */
  datatype Event =
    | DetectionError(error: string)
    | DetectionResult(success: bool, detections: seq<Detection>, count: nat, timestamp: Option<int>)

  const DefaultConfidence: real := 0.9

  const NoImage: string := "No image provided"
  const InvalidBase64: string := "Invalid base64 image"
  const BadImage: string := "Failed to process image"
  const ModelErrorPrefix: string := "AI model error: "
  const ServerError: string := "Server error occurred"

  /** What happens to one model box: a detection, skipped (KeyError or
      IndexError, caught per box) or a TypeError that escapes the loop. */
  datatype Conversion = Converted(detection: Detection) | Skipped | Failed

  /** The body of the per-box `try` block. */
  function ConvertBox(b: RawBox): (c: Conversion)
    ensures c.Skipped? <==> ReadRawBox(b).LookupError?
    ensures c.Failed? <==> ReadRawBox(b).TypeError?
    ensures c.Converted? ==>
      var box, d := ReadRawBox(b).box, c.detection;
      // the left and top edges, and the right and bottom edges they span to
      && d.x == box.xmin / 1000.0 && d.y == box.ymin / 1000.0
      && d.x + d.width == box.xmax / 1000.0 && d.y + d.height == box.ymax / 1000.0
      && d.name == GetOr(b.objectLabel, DefaultLabel)
      && d.confidence == GetOr(b.confidence, DefaultConfidence)
  {
    match ReadRawBox(b)
    case LookupError => Skipped
    case TypeError => Failed
    case Read(box) =>
      var x1, y1 := box.xmin / 1000.0, box.ymin / 1000.0;
      var x2, y2 := box.xmax / 1000.0, box.ymax / 1000.0;
      Converted(Detection(x1, y1, x2 - x1, y2 - y1,
                          GetOr(b.objectLabel, DefaultLabel), GetOr(b.confidence, DefaultConfidence)))
  }

  /** Fractions of a box on the 0-1000 scale stay in [0, 1]; a width or
      height is negative exactly when the maximum lies below the minimum,
      and nothing rejects such a box. */
  lemma ConvertedBoxFractions(b: RawBox)
    requires ReadRawBox(b).Read? && InScale(ReadRawBox(b).box)
    ensures ConvertBox(b).Converted?
    ensures var d, box := ConvertBox(b).detection, ReadRawBox(b).box;
      && 0.0 <= d.x <= 1.0 && 0.0 <= d.y <= 1.0
      && 0.0 <= d.x + d.width <= 1.0 && 0.0 <= d.y + d.height <= 1.0
      && (d.width < 0.0 <==> box.xmax < box.xmin)
      && (d.height < 0.0 <==> box.ymax < box.ymin)
  {
  }

  /** The detections of the loop over `boxes`, or `None` once a box raised
      TypeError (the outer `except`). Defined on the last box, the way the
      loop grows its list. */
  function ConvertAll(boxes: seq<RawBox>): (r: Option<seq<Detection>>)
    ensures r.Some? ==> |r.value| <= |boxes|
    decreases |boxes|
  {
    if boxes == [] then Some([])
    else
      var last := boxes[|boxes| - 1];
      match ConvertAll(boxes[..|boxes| - 1])
      case None => None
      case Some(ds) =>
        match ConvertBox(last)
        case Converted(d) => Some(ds + [d])
        case Skipped => Some(ds)
        case Failed => None
  }

  /** The kept detections in input order, by a filter from the front. */
  function Kept(boxes: seq<RawBox>): (ds: seq<Detection>)
    ensures |ds| <= |boxes|
  {
    if boxes == [] then []
    else
      var rest := Kept(boxes[1..]);
      if ConvertBox(boxes[0]).Converted? then [ConvertBox(boxes[0]).detection] + rest else rest
  }

  /** Some box of `boxes` raises TypeError. */
  predicate AnyFailed(boxes: seq<RawBox>) {
    exists k :: 0 <= k < |boxes| && ConvertBox(boxes[k]).Failed?
  }

  lemma {:induction false} KeptAppend(boxes: seq<RawBox>, b: RawBox)
    ensures Kept(boxes + [b]) == Kept(boxes) + Kept([b])
    decreases |boxes|
  {
    if boxes != [] {
      assert (boxes + [b])[1..] == boxes[1..] + [b];
      KeptAppend(boxes[1..], b);
    }
  }

  /** The loop either fails on a box that raises TypeError, or keeps exactly
      the well-formed boxes, converted, in their input order. */
  lemma {:induction false} ConvertAllIsKept(boxes: seq<RawBox>)
    ensures ConvertAll(boxes).None? <==> AnyFailed(boxes)
    ensures ConvertAll(boxes).Some? ==> ConvertAll(boxes).value == Kept(boxes)
    decreases |boxes|
  {
    if boxes != [] {
      var init, last := boxes[..|boxes| - 1], boxes[|boxes| - 1];
      assert boxes == init + [last];
      ConvertAllIsKept(init);
      KeptAppend(init, last);
      if AnyFailed(init) {
        var k :| 0 <= k < |init| && ConvertBox(init[k]).Failed?;
        assert ConvertBox(boxes[k]).Failed?;
      }
      if ConvertBox(last).Failed? {
        assert ConvertBox(boxes[|boxes| - 1]).Failed?;
      }
      if AnyFailed(boxes) && !AnyFailed(init) {
        var k :| 0 <= k < |boxes| && ConvertBox(boxes[k]).Failed?;
      }
    }
  }

  /** A list of well-formed boxes gives one detection per box, each from
      the box at the same position. */
  lemma {:induction false} KeptAllConverted(boxes: seq<RawBox>)
    requires forall k :: 0 <= k < |boxes| ==> ConvertBox(boxes[k]).Converted?
    ensures |Kept(boxes)| == |boxes|
    ensures forall k :: 0 <= k < |boxes| ==> Kept(boxes)[k] == ConvertBox(boxes[k]).detection
    decreases |boxes|
  {
    if boxes != [] {
      KeptAllConverted(boxes[1..]);
    }
  }

  /** A prefix that already failed makes the whole list fail. */
  lemma {:induction false} ConvertAllFailurePersists(boxes: seq<RawBox>, n: nat)
    requires n <= |boxes| && ConvertAll(boxes[..n]).None?
    ensures ConvertAll(boxes).None?
    decreases |boxes| - n
  {
    if n < |boxes| {
      assert boxes[..n + 1][..n] == boxes[..n];
      ConvertAllFailurePersists(boxes, n + 1);
    } else {
      assert boxes[..n] == boxes;
    }
  }

  /** The image text is missing or empty: Python's `not base64_image`. */
  predicate NoImageGiven(data: Payload) {
    data.image.None? || data.image.value == ""
  }

  /** `handle_frame`: every path emits exactly one event. */
  method HandleFrame(data: Payload, decode: string -> Option<Bytes>, open: Bytes -> Option<Image>,
                     detect: Image -> Result<seq<RawBox>>)
    returns (emitted: seq<Event>)
    ensures |emitted| == 1
    ensures NoImageGiven(data) ==> emitted == [DetectionError(NoImage)]
    ensures !NoImageGiven(data) ==>
      var bytes := decode(StripDataUrl(data.image.value));
      && (bytes.None? ==> emitted == [DetectionError(InvalidBase64)])
      && (bytes.Some? ==>
            var image := open(bytes.value);
            && (image.None? ==> emitted == [DetectionError(BadImage)])
            && (image.Some? ==>
                  var response := detect(image.value);
                  && (response.Raised? ==> emitted == [DetectionError(ModelErrorPrefix + response.message)])
                  && (response.Ok? ==>
                        var all := ConvertAll(response.value);
                        && (all.None? ==> emitted == [DetectionError(ServerError)])
                        && (all.Some? ==>
                              emitted == [DetectionResult(true, all.value, |all.value|, data.timestamp)]))))
  {
    if NoImageGiven(data) {
      return [DetectionError(NoImage)];
    }
    var base64Image := data.image.value;
    if ',' in base64Image {
      base64Image := Text.Split(base64Image, ',')[1];
    }
    var bytes := decode(base64Image);
    if bytes.None? {
      return [DetectionError(InvalidBase64)];
    }
    var image := open(bytes.value);
    if image.None? {
      return [DetectionError(BadImage)];
    }
    var response := detect(image.value);
    if response.Raised? {
      return [DetectionError(ModelErrorPrefix + response.message)];
    }
    var boxes := response.value;
    var detections: seq<Detection> := [];
    var i := 0;
    while i < |boxes|
      invariant 0 <= i <= |boxes|
      invariant ConvertAll(boxes[..i]) == Some(detections)
    {
      assert boxes[..i + 1][..i] == boxes[..i];
      match ConvertBox(boxes[i]) {
        case Converted(d) =>
          detections := detections + [d];
        case Skipped =>
        case Failed =>
          ConvertAllFailurePersists(boxes, i + 1);
          return [DetectionError(ServerError)];
      }
      i := i + 1;
    }
    assert boxes[..i] == boxes;
    return [DetectionResult(true, detections, |detections|, data.timestamp)];
  }
}
