/** The video player: play and pause, the latched error panel, still-frame
    capture, and the bounding boxes drawn over a paused frame. */
module VideoPlayer {
  import opened Types
  import opened Text

  /** `readyState` value HAVE_CURRENT_DATA: the current frame is available. */
  const HaveCurrentData: nat := 2

  /** The default size of a fresh canvas element. */
  const DefaultCanvasWidth: nat := 300
  const DefaultCanvasHeight: nat := 150

  /** What a capture request hands to the capture callback, if anything.
      `frame` is `None` where the script would pass `undefined`. */
  datatype Capture = Skipped | Delivered(frame: Option<string>)

  /** `dataUrl.split(',')[1]`: the text between the first comma and the next
      one (or the end), undefined when there is no comma at all. */
  function FramePayload(dataUrl: string): (payload: Option<string>)
    ensures payload.Some? <==> ',' in dataUrl
    ensures payload.Some? ==> ',' !in payload.value
    ensures forall a, b :: ',' !in a && dataUrl == a + "," + b ==> payload == Some(Split(b, ',')[0])
  {
    SplitIsProper(dataUrl, ',');
    forall a, b | ',' !in a && dataUrl == a + "," + b
      ensures Split(dataUrl, ',')[1] == Split(b, ',')[0]
    {
      SplitAtFirstSeparator(a, ',', b);
      assert a + "," + b == a + [','] + b;
    }
    var parts := Split(dataUrl, ',');
    if |parts| > 1 then Some(parts[1]) else None
  }

  /** For a data URL with one comma, the payload is exactly the encoded image. */
  lemma DataUrlPayload(header: string, body: string)
    requires ',' !in header && ',' !in body
    ensures FramePayload(header + "," + body) == Some(body)
  {
    SplitAtFirstSeparator(header, ',', body);
    SplitWithoutSeparator(body, ',');
  }

  class Player {
    var src: string
    var isPlaying: bool
    var hasError: bool
    // The media element.
    var paused: bool
    var readyState: nat
    var videoWidth: nat
    var videoHeight: nat
    // The hidden canvas frames are drawn on.
    var canvasWidth: nat
    var canvasHeight: nat

    /** The `<video>` element is rendered only while no error is shown. */
    predicate VideoMounted()
      reads this
    {
      !hasError
    }

    /** Mounting, including the first run of the effect on `src`, which loads the media. */
    constructor(src: string)
      ensures this.src == src && !isPlaying && !hasError
      ensures paused && readyState == 0 && videoWidth == 0 && videoHeight == 0
      ensures canvasWidth == DefaultCanvasWidth && canvasHeight == DefaultCanvasHeight
    {
      this.src := src;
      isPlaying, hasError := false, false;
      paused, readyState, videoWidth, videoHeight := true, 0, 0, 0;
      canvasWidth, canvasHeight := DefaultCanvasWidth, DefaultCanvasHeight;
    }

    /** A changed `src` prop (the effect depends on `src` alone, so it runs
        only when the value differs). The effect clears the error and reloads the media,
        but only when the video element is mounted, that is, only when no
        error is shown: an error that is showing stays. */
    method SrcChanged(newSrc: string)
      requires newSrc != src
      modifies this
      ensures src == newSrc && hasError == old(hasError) && isPlaying == old(isPlaying)
      ensures old(hasError) || newSrc == "" ==>
                paused == old(paused) && readyState == old(readyState)
      ensures !old(hasError) && newSrc != "" ==> paused && readyState == 0
      ensures videoWidth == old(videoWidth) && videoHeight == old(videoHeight)
      ensures canvasWidth == old(canvasWidth) && canvasHeight == old(canvasHeight)
    {
      src := newSrc;
      if VideoMounted() && newSrc != "" {
        hasError := false;
        paused, readyState := true, 0;
      }
    }

    /** The browser has decoded enough of the media to report its state. */
    method MediaProgress(state: nat, width: nat, height: nat)
      modifies this
      ensures readyState == state && videoWidth == width && videoHeight == height
      ensures src == old(src) && isPlaying == old(isPlaying) && hasError == old(hasError) && paused == old(paused)
      ensures canvasWidth == old(canvasWidth) && canvasHeight == old(canvasHeight)
    {
      readyState, videoWidth, videoHeight := state, width, height;
    }

    /** Clicking the video or the play button. Nothing happens while the
        error is shown; a paused video starts and the play callback fires
        once; a playing video pauses and the callback does not fire. */
    method TogglePlay() returns (playCallback: bool)
      modifies this
      ensures old(hasError) ==> !playCallback && isPlaying == old(isPlaying) && paused == old(paused)
      ensures !old(hasError) && old(paused) ==> playCallback && isPlaying && !paused
      ensures !old(hasError) && !old(paused) ==> !playCallback && !isPlaying && paused
      ensures src == old(src) && hasError == old(hasError) && readyState == old(readyState)
      ensures videoWidth == old(videoWidth) && videoHeight == old(videoHeight)
      ensures canvasWidth == old(canvasWidth) && canvasHeight == old(canvasHeight)
    {
      playCallback := false;
      if VideoMounted() {
        if paused {
          paused := false;
          isPlaying := true;
          playCallback := true;
        } else {
          paused := true;
          isPlaying := false;
        }
      }
    }

    /** `play()` was rejected, or the media element reported an error: the
        error panel replaces the video. */
    method Fail()
      modifies this
      ensures hasError && !VideoMounted()
      ensures src == old(src) && isPlaying == old(isPlaying) && paused == old(paused) && readyState == old(readyState)
      ensures videoWidth == old(videoWidth) && videoHeight == old(videoHeight)
      ensures canvasWidth == old(canvasWidth) && canvasHeight == old(canvasHeight)
    {
      hasError := true;
    }

    /** Playback reached the end. */
    method Ended()
      modifies this
      ensures !isPlaying && paused
      ensures src == old(src) && hasError == old(hasError) && readyState == old(readyState)
      ensures videoWidth == old(videoWidth) && videoHeight == old(videoHeight)
      ensures canvasWidth == old(canvasWidth) && canvasHeight == old(canvasHeight)
    {
      isPlaying := false;
      paused := true;
    }

    /** A capture request. Only with the video mounted and a current frame
        is the canvas resized to the video and a frame taken; the callback
        then receives the payload of the encoded image, unless the drawing
        context is missing or encoding throws (`dataUrl == None`). */
    method CaptureFrame(contextAvailable: bool, dataUrl: Option<string>) returns (c: Capture)
      modifies this
      ensures c.Delivered? <==> !hasError && readyState >= HaveCurrentData && contextAvailable && dataUrl.Some?
      ensures c.Delivered? ==> c.frame == FramePayload(dataUrl.value)
      ensures !hasError && readyState >= HaveCurrentData ==>
                canvasWidth == videoWidth && canvasHeight == videoHeight
      ensures hasError || readyState < HaveCurrentData ==>
                canvasWidth == old(canvasWidth) && canvasHeight == old(canvasHeight)
      ensures src == old(src) && isPlaying == old(isPlaying) && hasError == old(hasError)
      ensures paused == old(paused) && readyState == old(readyState)
      ensures videoWidth == old(videoWidth) && videoHeight == old(videoHeight)
    {
      c := Skipped;
      if VideoMounted() && readyState >= HaveCurrentData {
        canvasWidth := videoWidth;
        canvasHeight := videoHeight;
        if contextAvailable && dataUrl.Some? {
          c := Delivered(FramePayload(dataUrl.value));
        }
      }
    }
  }

  // ---------------------------------------------------------------------
  // What is drawn
  // ---------------------------------------------------------------------

  /** One box over the paused frame, positioned in percent of the frame. */
  datatype BoxView = BoxView(id: string, highlighted: bool, top: real, left: real, width: real, height: real)

  /** What the player shows besides the video itself. */
  datatype View = View(errorPanel: bool, controls: bool, boxes: seq<BoxView>)

  /** A coordinate on the 0..1000 scale as a CSS percentage. */
  function Percent(v: real): (pct: real)
    ensures 0.0 <= v <= 1000.0 ==> 0.0 <= pct <= 100.0
    ensures pct * 10.0 == v
  {
    v / 10.0
  }

  function Box(obj: DetectedObject, hovered: Option<string>): BoxView {
    var b := obj.boundingBox;
    BoxView(obj.id, hovered == Some(obj.id), Percent(b.y), Percent(b.x), Percent(b.width), Percent(b.height))
  }

  /** Boxes are drawn only over a paused video with something detected. */
  predicate BoxesShown(hasError: bool, isPlaying: bool, objects: seq<DetectedObject>) {
    !hasError && !isPlaying && |objects| > 0
  }

  function Overlay(hasError: bool, isPlaying: bool, objects: seq<DetectedObject>, hovered: Option<string>): seq<BoxView> {
    if BoxesShown(hasError, isPlaying, objects) then seq(|objects|, i requires 0 <= i < |objects| => Box(objects[i], hovered))
    else []
  }

  /** The player's view for its state and props: the error panel and the
      transport controls exclude each other, and no box is drawn under the
      error panel or while playing. Otherwise there is one box per object,
      in order, highlighted exactly when its id is the hovered one. */
  function PlayerView(hasError: bool, isPlaying: bool, objects: seq<DetectedObject>, hovered: Option<string>): (v: View)
    ensures v.errorPanel == hasError && v.controls == !hasError
    ensures hasError || isPlaying ==> v.boxes == []
    ensures !hasError && !isPlaying ==> |v.boxes| == |objects|
    ensures forall i :: 0 <= i < |v.boxes| ==>
              v.boxes[i].id == objects[i].id && (v.boxes[i].highlighted <==> hovered == Some(objects[i].id))
    ensures forall i :: 0 <= i < |v.boxes| ==>
              var b := objects[i].boundingBox;
              && v.boxes[i].top == Percent(b.y) && v.boxes[i].left == Percent(b.x)
              && v.boxes[i].width == Percent(b.width) && v.boxes[i].height == Percent(b.height)
  {
    View(hasError, !hasError, Overlay(hasError, isPlaying, objects, hovered))
  }

  predicate DistinctIds(objects: seq<DetectedObject>) {
    forall i, j :: 0 <= i < j < |objects| ==> objects[i].id != objects[j].id
  }

  /** A box whose corners lie on the 0..1000 scale stays inside the frame. */
  lemma BoxInsideFrame(obj: DetectedObject, hovered: Option<string>)
    requires var b := obj.boundingBox;
      0.0 <= b.x && 0.0 <= b.y && 0.0 <= b.width && 0.0 <= b.height
      && b.x + b.width <= 1000.0 && b.y + b.height <= 1000.0
    ensures var v := Box(obj, hovered);
      0.0 <= v.left && v.left + v.width <= 100.0 && 0.0 <= v.top && v.top + v.height <= 100.0
  {
  }
}
