/**
 * The `detect_frame` backend with distance estimation: a table of known
 * object heights, the pinhole-camera distance formula, pixel conversion of
 * the model's boxes and the list of detections (and of speech items) the
 * handler builds. Decoding, PIL, the model call and text-to-speech are
 * foreign and appear as parameters or outputs.
 */
module DistanceServer {
  import opened Wrappers
  import opened Text
  import opened Boxes
  import opened DataUrl

  /** Real-world size of a known object, in centimetres. */
  datatype Size = Size(widthCm: nat, heightCm: nat)

  /** `KNOWN_OBJECTS`. */
  const KnownObjects: map<string, Size> := map[
    "person" := Size(50, 170),
    "laptop" := Size(35, 25),
    "phone" := Size(7, 15),
    "bottle" := Size(7, 20),
    "cup" := Size(8, 10),
    "book" := Size(15, 20),
    "chair" := Size(45, 90),
    "monitor" := Size(50, 30)
  ]

  /** `FOCAL_LENGTH`, in pixels. */
  const FocalLength: int := 350

  /** `distance_to_camera`: the pinhole relation
      distance * apparent size == real size * focal length. */
  function DistanceToCamera(knownWidth: int, focalLength: int, perWidth: int): (d: Option<real>)
    ensures d.None? <==> perWidth == 0
    ensures d.Some? ==> d.value * perWidth as real == (knownWidth * focalLength) as real
  {
    if perWidth == 0 then None else Some((knownWidth * focalLength) as real / perWidth as real)
  }

  /** `estimate_object_distance`: the label is looked up in lower case and
      the distance comes from the known height and the box height alone. */
  function EstimateObjectDistance(box: PixelBox, name: string): (d: Option<real>)
    ensures Lower(name) !in KnownObjects ==> d.None?
    ensures Lower(name) in KnownObjects ==>
      d == DistanceToCamera(KnownObjects[Lower(name)].heightCm, FocalLength, box.y2 - box.y1)
  {
    var key := Lower(name);
    if key !in KnownObjects then None
    else
      var boxHeight := box.y2 - box.y1;
      DistanceToCamera(KnownObjects[key].heightCm, FocalLength, boxHeight)
  }

  /** Every key of the table is lower case, so the lookup of `lower()`
      matches a label exactly when some casing of a key equals it. */
  lemma KnownObjectsLowerCase()
    ensures forall k :: k in KnownObjects ==> IsLowerCase(k) && Lower(k) == k
  {
    forall k | k in KnownObjects
      ensures IsLowerCase(k) && Lower(k) == k
    {
      LowerIdempotent(k);
    }
  }

  /** Labels that differ only in ASCII case get the same estimate. */
  lemma EstimateCaseInsensitive(box: PixelBox, a: string, b: string)
    requires Lower(a) == Lower(b)
    ensures EstimateObjectDistance(box, a) == EstimateObjectDistance(box, b)
  {
  }

  /** Only the box height matters: boxes of equal height give the same
      estimate whatever their widths or positions. */
  lemma EstimateIgnoresWidth(p: PixelBox, q: PixelBox, name: string)
    requires p.y2 - p.y1 == q.y2 - q.y1
    ensures EstimateObjectDistance(p, name) == EstimateObjectDistance(q, name)
  {
  }

  /** A known object with a positive box height has a positive distance, and
      a taller box puts it strictly closer. */
  lemma TallerIsCloser(p: PixelBox, q: PixelBox, name: string)
    requires Lower(name) in KnownObjects
    requires 0 < p.y2 - p.y1 < q.y2 - q.y1
    ensures EstimateObjectDistance(p, name).Some? && EstimateObjectDistance(q, name).Some?
    ensures 0.0 < EstimateObjectDistance(q, name).value < EstimateObjectDistance(p, name).value
  {
    var k := (KnownObjects[Lower(name)].heightCm * FocalLength) as real;
    assert k > 0.0 by {
      assert KnownObjects[Lower(name)].heightCm > 0;
    }
    var hp, hq := (p.y2 - p.y1) as real, (q.y2 - q.y1) as real;
    var dp, dq := k / hp, k / hq;
    assert dq * hq == k && dp * hp == k;
    assert 0.0 < dq by {
      if dq <= 0.0 { MulNonPos(dq, hq); }
    }
    assert dq < dp by {
      if dp <= dq {
        MulLess(dp, dq, hp, hq);
      }
    }
  }

  lemma MulNonPos(a: real, b: real)
    requires a <= 0.0 && 0.0 < b
    ensures a * b <= 0.0
  {
  }

  lemma MulLess(a: real, b: real, c: real, d: real)
    requires 0.0 < a <= b && 0.0 < c < d
    ensures a * c < b * d
  {
    assert a * c <= b * c;
  }

  /** No entry of the table has zero height, so an estimate is never 0. */
  lemma EstimateNeverZero(box: PixelBox, name: string)
    ensures EstimateObjectDistance(box, name) != Some(0.0)
  {
    if Lower(name) in KnownObjects {
      assert KnownObjects[Lower(name)].heightCm > 0;
    }
  }

  /** `round(distance_cm / 100, 2) if distance_cm else None`, without the
      rounding: `None` for a missing or zero distance. */
  function DistanceMeters(cm: Option<real>): (m: Option<real>)
    ensures m.None? <==> cm.None? || cm.value == 0.0
    ensures m.Some? ==> m.value * 100.0 == cm.value
  {
    if cm.None? || cm.value == 0.0 then None else Some(cm.value / 100.0)
  }

  /** An entry of `last_detections`. */
  datatype ObjectDetection = ObjectDetection(coords: seq<int>, name: string, distanceCm: Option<real>, distanceM: Option<real>)

  /** An entry of `t2s_list`: what is spoken for one object. */
  datatype SpeechItem = SpeechItem(name: string, distanceM: Option<real>)

  /** The `detection_result` event (the audio clip is left out). */
  datatype DetectResult = DetectResult(objects: seq<ObjectDetection>, count: nat, imageWidth: nat, imageHeight: nat, success: bool)

  /** The loop body for one box; `None` when reading `box_2d` raises. */
  function DetectOne(b: RawBox, width: nat, height: nat): (r: Option<ObjectDetection>)
    ensures r.Some? <==> ReadRawBox(b).Read?
    ensures r.Some? ==>
      var box, o := ReadRawBox(b).box, r.value;
      var name := GetOr(b.objectLabel, DefaultLabel);
      && o.coords == ToPixelBox(box, width, height).Coords()
      && o.name == name
      && o.distanceCm == EstimateObjectDistance(ToPixelBox(box, width, height), name)
      // a metre value exactly when there is a centimetre value
      && (o.distanceM.None? <==> o.distanceCm.None?)
      && (o.distanceM.Some? ==> o.distanceM.value * 100.0 == o.distanceCm.value)
  {
    match ReadRawBox(b)
    case Read(box) =>
      var p := ToPixelBox(box, width, height);
      var name := GetOr(b.objectLabel, DefaultLabel);
      var cm := EstimateObjectDistance(p, name);
      EstimateNeverZero(p, name);
      Some(ObjectDetection(p.Coords(), name, cm, DistanceMeters(cm)))
    case _ => None
  }

  /** The payload's `image`. Its `prompt`, which the handler hands to the
      model call, is folded into the `detect` parameter. */
  datatype DetectPayload = DetectPayload(image: Option<string>)

  /** `handle_detect_frame`. `result` is the emitted `detection_result`, or
      `None` when an exception ended the handler before the emit; `speech`
      is the list handed to text-to-speech. */
  method HandleDetectFrame(data: DetectPayload, decode: string -> Option<Bytes>, open: Bytes -> Option<Image>,
                           detect: Image -> Result<seq<RawBox>>)
    returns (result: Option<DetectResult>, speech: seq<SpeechItem>)
    ensures data.image.None? ==> result.None?
    ensures data.image.Some? && decode(StripDataUrl(data.image.value)).None? ==> result.None?
    ensures result.Some? ==>
      data.image.Some? &&
      var bytes := decode(StripDataUrl(data.image.value));
      bytes.Some? && open(bytes.value).Some? &&
      var image := open(bytes.value).value;
      detect(image).Ok? &&
      var boxes := detect(image).value;
      var r := result.value;
      && r.success && r.imageWidth == image.width && r.imageHeight == image.height
      // one detection per box, in input order, and the same count
      && |r.objects| == |boxes| == r.count == |speech|
      && (forall k :: 0 <= k < |boxes| ==>
            DetectOne(boxes[k], image.width, image.height) == Some(r.objects[k]) &&
            speech[k] == SpeechItem(r.objects[k].name, r.objects[k].distanceM))
    // the handler only fails on a box when reading its `box_2d` raises
    ensures (data.image.Some? &&
      var bytes := decode(StripDataUrl(data.image.value));
      bytes.Some? && open(bytes.value).Some? &&
      var image := open(bytes.value).value;
      detect(image).Ok? &&
      (forall k :: 0 <= k < |detect(image).value| ==> ReadRawBox(detect(image).value[k]).Read?))
      ==> result.Some?
  {
    result, speech := None, [];
    if data.image.None? {
      return;
    }
    var base64Image := data.image.value;
    if ',' in base64Image {
      base64Image := Split(base64Image, ',')[1];
    }
    var bytes := decode(base64Image);
    if bytes.None? {
      return;
    }
    var image := open(bytes.value);
    if image.None? {
      return;
    }
    var width, height := image.value.width, image.value.height;
    var response := detect(image.value);
    if response.Raised? {
      return;
    }
    var boxes := response.value;
    var objects: seq<ObjectDetection> := [];
    var i := 0;
    while i < |boxes|
      invariant 0 <= i <= |boxes|
      invariant |objects| == |speech| == i
      invariant forall k :: 0 <= k < i ==>
        DetectOne(boxes[k], width, height) == Some(objects[k]) &&
        speech[k] == SpeechItem(objects[k].name, objects[k].distanceM)
    {
      var detection := DetectOne(boxes[i], width, height);
      if detection.None? {
        speech := [];
        return;
      }
      objects := objects + [detection.value];
      speech := speech + [SpeechItem(detection.value.name, detection.value.distanceM)];
      i := i + 1;
    }
    result := Some(DetectResult(objects, |objects|, width, height, true));
  }
}
