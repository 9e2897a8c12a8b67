/**
 * The webcam detection script: a `while True` loop that grabs a frame,
 * counts it, decides from the auto-detect mode and the pressed key whether
 * to send the frame to the detection model, and replaces its list of
 * pixel boxes with the model's answer. The camera, the key reader and the
 * model call are foreign: each iteration receives their results as a
 * `FrameInput`; drawing and display are left out.
 */
module FrameLoop {
  import opened Wrappers
  import opened Boxes

  /** `process_every_n_frames`. */
  const ProcessEveryNFrames: nat := 60

  /** `ord('q')`, `ord('s')`, `ord('a')`. */
  const KeyQuit: int := 113
  const KeyScan: int := 115
  const KeyAuto: int := 97

  /** What one iteration receives: whether `capture.read()` returned a
      frame, the frame's size, the raw `cv2.waitKey(1)` value, and the
      parsed model answer for this frame (`None`: the call or the JSON
      parse raised). */
  datatype FrameInput = FrameInput(grabbed: bool, width: nat, height: nat, key: int, response: Option<seq<RawBox>>)

  /** An entry of `last_bounding_boxes`. */
  datatype LabeledBox = LabeledBox(coords: seq<int>, name: string)

  /** The loop's variables that outlive an iteration. */
  datatype LoopState = LoopState(frameCount: nat, autoDetect: bool, lastBoundingBoxes: seq<LabeledBox>)

  /** The values before the loop starts. */
  const Initial: LoopState := LoopState(0, false, [])

  /** `cv2.waitKey(1) & 0xFF`. */
  function KeyCode(key: int): (k: int)
    ensures 0 <= k < 256
    ensures (key - k) % 256 == 0
  {
    key % 256
  }

  /** The loop body's conversion of one model box to pixels. */
  function ToLabeledBox(box: Box2d, b: RawBox, width: nat, height: nat): (l: LabeledBox)
    requires b.RawBox?
    ensures l.coords == ToPixelBox(box, width, height).Coords()
    ensures b.objectLabel.None? ==> l.name == DefaultLabel
    ensures b.objectLabel.Some? ==> l.name == b.objectLabel.value
  {
    LabeledBox(ToPixelBox(box, width, height).Coords(), GetOr(b.objectLabel, DefaultLabel))
  }

  /** The list after a successful model call: it is reset, then refilled in
      input order until a box raises (the exception leaves the partly
      rebuilt list in place). */
  function Rebuilt(boxes: seq<RawBox>, width: nat, height: nat): (r: seq<LabeledBox>)
    ensures |r| <= |boxes|
    ensures forall k :: 0 <= k < |r| ==>
      ReadRawBox(boxes[k]).Read? && r[k] == ToLabeledBox(ReadRawBox(boxes[k]).box, boxes[k], width, height)
    ensures |r| < |boxes| ==> !ReadRawBox(boxes[|r|]).Read?
    decreases |boxes|
  {
    if boxes == [] then []
    else match ReadRawBox(boxes[0])
      case Read(box) => [ToLabeledBox(box, boxes[0], width, height)] + Rebuilt(boxes[1..], width, height)
      case _ => []
  }

  /** A frame's processing is decided before the key is read, from the
      mode and the already incremented counter. */
  predicate AutoFires(autoDetect: bool, frameCount: nat) {
    autoDetect && frameCount % ProcessEveryNFrames == 0
  }

  /** What an iteration leaves behind, whether the loop goes on, and
      whether the frame was sent to the model. */
  datatype StepOutcome = StepOutcome(state: LoopState, running: bool, processed: bool)

  /** One iteration of the loop. */
  function Next(s: LoopState, f: FrameInput): (r: StepOutcome)
    ensures !f.grabbed ==> r.state == s && !r.running
    ensures r.running ==> r.state.frameCount == s.frameCount + 1
  {
    if !f.grabbed then StepOutcome(s, false, false)
    else
      var count := s.frameCount + 1;
      var key := KeyCode(f.key);
      if key == KeyQuit then StepOutcome(s.(frameCount := count), false, false)
      else
        var process := key == KeyScan || AutoFires(s.autoDetect, count);
        var auto := if key == KeyAuto then !s.autoDetect else s.autoDetect;
        var boxes := if process && f.response.Some? then Rebuilt(f.response.value, f.width, f.height)
                     else s.lastBoundingBoxes;
        StepOutcome(LoopState(count, auto, boxes), true, process)
  }

  /** What one iteration does, field by field. */
  lemma NextSpec(s: LoopState, f: FrameInput)
    ensures var r := Next(s, f);
      // a failed read ends the loop and touches nothing
      && (!f.grabbed ==> r == StepOutcome(s, false, false))
      // each grabbed frame is counted once
      && (f.grabbed ==> r.state.frameCount == s.frameCount + 1)
      // only a failed read or `q` stops the loop
      && (r.running <==> f.grabbed && KeyCode(f.key) != KeyQuit)
      // `s` forces processing; without it only the auto mode can fire; `q`
      // never processes
      && (r.processed <==>
            f.grabbed && KeyCode(f.key) != KeyQuit &&
            (KeyCode(f.key) == KeyScan || AutoFires(s.autoDetect, s.frameCount + 1)))
      // only `a` changes the mode
      && r.state.autoDetect == (if f.grabbed && KeyCode(f.key) == KeyAuto then !s.autoDetect else s.autoDetect)
      // the boxes change only when a processed frame got an answer
      && r.state.lastBoundingBoxes ==
           if r.processed && f.response.Some? then Rebuilt(f.response.value, f.width, f.height)
           else s.lastBoundingBoxes
  {
  }

  /** Two presses of `a` restore the mode, whatever else the frames carry. */
  lemma ToggleTwiceRestores(s: LoopState, f: FrameInput, g: FrameInput)
    requires f.grabbed && g.grabbed && KeyCode(f.key) == KeyAuto && KeyCode(g.key) == KeyAuto
    ensures Next(Next(s, f).state, g).state.autoDetect == s.autoDetect
  {
  }

  /** The loop over a finite run of frames: the final state and how many
      frames it consumed before stopping (or running out). */
  function RunFrom(s: LoopState, frames: seq<FrameInput>): (r: (LoopState, nat))
    ensures r.1 <= |frames|
    ensures frames != [] ==> 1 <= r.1
    decreases |frames|
  {
    if frames == [] then (s, 0)
    else
      var o := Next(s, frames[0]);
      if !o.running then (o.state, 1)
      else
        var rest := RunFrom(o.state, frames[1..]);
        (rest.0, rest.1 + 1)
  }

  /** A run's result after `n` frames already consumed. */
  function Shifted(r: (LoopState, nat), n: nat): (LoopState, nat) {
    (r.0, r.1 + n)
  }

  /** How a run over non-empty frames starts. */
  lemma RunFromFirst(s: LoopState, frames: seq<FrameInput>)
    requires frames != []
    ensures var o := Next(s, frames[0]);
      RunFrom(s, frames) == if o.running then Shifted(RunFrom(o.state, frames[1..]), 1) else (o.state, 1)
  {
  }

  /** The frame ends the loop: a failed read or `q`. */
  predicate Stops(f: FrameInput) {
    !f.grabbed || KeyCode(f.key) == KeyQuit
  }

  /** Number of grabbed frames in `frames`. */
  function Grabbed(frames: seq<FrameInput>): (n: nat)
    ensures n <= |frames|
  {
    if frames == [] then 0 else (if frames[0].grabbed then 1 else 0) + Grabbed(frames[1..])
  }

  /** An iteration goes on exactly when its frame does not stop the loop,
      and counts the frame exactly when it was grabbed. */
  lemma NextStopsAndCounts(s: LoopState, f: FrameInput)
    ensures Next(s, f).running <==> !Stops(f)
    ensures Next(s, f).state.frameCount == s.frameCount + (if f.grabbed then 1 else 0)
  {
  }

  /** The loop consumes frames up to and including the first that stops it
      (all of them when none does). */
  lemma {:induction false} RunStopsAtFirstStop(s: LoopState, frames: seq<FrameInput>)
    ensures var n := RunFrom(s, frames).1;
      && n <= |frames|
      && (frames != [] ==> n >= 1)
      && (forall k :: 0 <= k < n - 1 ==> !Stops(frames[k]))
      && (n < |frames| ==> Stops(frames[n - 1]))
    decreases |frames|
  {
    if frames != [] {
      var o := Next(s, frames[0]);
      NextStopsAndCounts(s, frames[0]);
      if o.running {
        RunStopsAtFirstStop(o.state, frames[1..]);
        var m := RunFrom(o.state, frames[1..]).1;
        assert RunFrom(s, frames).1 == m + 1;
        forall k | 0 <= k < m ensures !Stops(frames[k]) {
          if k > 0 { assert frames[k] == frames[1..][k - 1]; }
        }
        if m + 1 < |frames| {
          assert frames[m] == frames[1..][m - 1];
        }
      }
    }
  }

  /** The counter grows by the number of grabbed frames the loop consumed. */
  lemma {:induction false} RunCountsGrabbed(s: LoopState, frames: seq<FrameInput>)
    ensures RunFrom(s, frames).1 <= |frames|
    ensures RunFrom(s, frames).0.frameCount == s.frameCount + Grabbed(frames[..RunFrom(s, frames).1])
    decreases |frames|
  {
    if frames != [] {
      var o := Next(s, frames[0]);
      NextStopsAndCounts(s, frames[0]);
      if o.running {
        RunCountsGrabbed(o.state, frames[1..]);
        var m := RunFrom(o.state, frames[1..]).1;
        var taken := frames[..m + 1];
        assert taken[0] == frames[0] && taken[1..] == frames[1..][..m];
      } else {
        var taken := frames[..1];
        assert taken[0] == frames[0] && taken[1..] == [];
      }
    }
  }

  /** The running script's loop variables. */
  class DetectionLoop {
    var frameCount: nat
    var autoDetect: bool
    var lastBoundingBoxes: seq<LabeledBox>

    function State(): LoopState
      reads this
    {
      LoopState(frameCount, autoDetect, lastBoundingBoxes)
    }

    constructor ()
      ensures State() == Initial
    {
      frameCount := 0;
      autoDetect := false;
      lastBoundingBoxes := [];
    }

    /** One pass of the `while True` body. */
    method Step(f: FrameInput) returns (running: bool, processed: bool)
      modifies this
      ensures Next(old(State()), f) == StepOutcome(State(), running, processed)
    {
      if !f.grabbed {
        return false, false;
      }
      frameCount := frameCount + 1;
      var shouldProcess := false;
      if autoDetect && frameCount % ProcessEveryNFrames == 0 {
        shouldProcess := true;
      }
      var key := f.key % 256;
      if key == KeyQuit {
        return false, false;
      } else if key == KeyScan {
        shouldProcess := true;
      } else if key == KeyAuto {
        autoDetect := !autoDetect;
      }
      if shouldProcess && f.response.Some? {
        var boxes := f.response.value;
        var rebuilt: seq<LabeledBox> := [];
        var i := 0;
        while i < |boxes|
          invariant 0 <= i <= |boxes| && |rebuilt| == i
          invariant forall k :: 0 <= k < i ==>
            ReadRawBox(boxes[k]).Read? &&
            rebuilt[k] == ToLabeledBox(ReadRawBox(boxes[k]).box, boxes[k], f.width, f.height)
        {
          var read := ReadRawBox(boxes[i]);
          if !read.Read? {
            break;
          }
          rebuilt := rebuilt + [ToLabeledBox(read.box, boxes[i], f.width, f.height)];
          i := i + 1;
        }
        ghost var expected := Rebuilt(boxes, f.width, f.height);
        assert |expected| == |rebuilt|;
        lastBoundingBoxes := rebuilt;
      }
      return true, shouldProcess;
    }

    /** The loop over the frames the camera delivers, until a failed read
        or `q`; returns how many frames it consumed. */
    method Run(frames: seq<FrameInput>) returns (consumed: nat)
      modifies this
      ensures (State(), consumed) == RunFrom(old(State()), frames)
    {
      ghost var total := RunFrom(State(), frames);
      consumed := 0;
      var running := true;
      while running && consumed < |frames|
        invariant 0 <= consumed <= |frames|
        invariant running ==> total == Shifted(RunFrom(State(), frames[consumed..]), consumed)
        invariant !running ==> total == (State(), consumed)
        decreases |frames| - consumed
      {
        ghost var before := State();
        ghost var rest := frames[consumed..];
        var processed;
        running, processed := Step(frames[consumed]);
        RunFromFirst(before, rest);
        assert rest[1..] == frames[consumed + 1..];
        consumed := consumed + 1;
      }
    }
  }
}
