/** The dashboard: it restores the chosen video from the browser store,
    runs a scan of a captured frame through the detection service, and
    clears the results when playback resumes. */
module Dashboard {
  import opened Types
  import opened Web
  import UploadVideo

  const UploadPath := "/upload"
  const YouTubeScanError := "Note: YouTube videos can't be scanned frame-by-frame currently. Please upload a video file."
  const SearchFailedError := "Search failed. Please try scanning the screen again."

  /** How the awaited detection call ends: with a list of objects, or by throwing. */
  datatype Detection = Found(objects: seq<DetectedObject>) | Failed

  class DashboardPage {
    const browser: Browser
    var videoUrl: Option<string>
    var sourceType: Option<string>
    var detectedObjects: seq<DetectedObject>
    var hoveredObjectId: Option<string>
    var isAnalyzing: bool
    var error: Option<string>

    constructor(browser: Browser)
      ensures this.browser == browser
      ensures videoUrl == None && sourceType == None && detectedObjects == []
      ensures hoveredObjectId == None && !isAnalyzing && error == None
    {
      this.browser := browser;
      videoUrl, sourceType := None, None;
      detectedObjects, hoveredObjectId := [], None;
      isAnalyzing, error := false, None;
    }

    /** The page renders at all only once a non-empty video URL is known. */
    predicate Renders()
      reads this
    {
      videoUrl.Some? && videoUrl.value != ""
    }

    predicate IsYouTube()
      reads this
    {
      sourceType == Some("youtube")
    }

    /** The scan button is offered for every source but a YouTube link. */
    predicate ScanButtonShown()
      reads this
    {
      !IsYouTube()
    }

    predicate ScanButtonEnabled()
      reads this
    {
      !isAnalyzing
    }

    /** The mount effect: a stored, non-empty video is loaded together with
        its stored source type; otherwise the page sends the visitor to the
        upload page. */
    method Mount()
      modifies this, browser
      ensures browser.storage == old(browser.storage)
      ensures var saved := browser.GetItem(UploadVideo.LastVideoKey);
        if saved.Some? && saved.value != "" then
          && videoUrl == saved && sourceType == browser.GetItem(UploadVideo.SourceTypeKey) && Renders()
          && browser.location == old(browser.location)
        else
          && videoUrl == old(videoUrl) && sourceType == old(sourceType)
          && browser.location == UploadPath
      ensures detectedObjects == old(detectedObjects) && hoveredObjectId == old(hoveredObjectId)
      ensures isAnalyzing == old(isAnalyzing) && error == old(error)
    {
      var saved := browser.GetItem(UploadVideo.LastVideoKey);
      var kind := browser.GetItem(UploadVideo.SourceTypeKey);
      if saved.Some? && saved.value != "" {
        sourceType := kind;
        videoUrl := saved;
      } else {
        browser.Navigate(UploadPath);
      }
    }

    /** The synchronous part of the capture handler, up to the awaited call.
        A YouTube source only gets the explanatory error; any other source
        starts the analysis with the error and the hover cleared. The result
        says whether the detection service is called. */
    method BeginFrameCapture() returns (requested: bool)
      modifies this
      ensures requested <==> ScanButtonShown()
      ensures !requested ==> error == Some(YouTubeScanError) && isAnalyzing == old(isAnalyzing)
                             && hoveredObjectId == old(hoveredObjectId)
      ensures requested ==> isAnalyzing && error == None && hoveredObjectId == None && !ScanButtonEnabled()
      ensures detectedObjects == old(detectedObjects) && videoUrl == old(videoUrl) && sourceType == old(sourceType)
    {
      if IsYouTube() {
        error := Some(YouTubeScanError);
        requested := false;
        return;
      }
      isAnalyzing := true;
      error := None;
      hoveredObjectId := None;
      requested := true;
    }

    /** The rest of the handler, once the awaited call has ended: the result
        replaces the objects, a failure sets the error, and either way the
        analysis is over. */
    method FinishFrameCapture(outcome: Detection)
      modifies this
      ensures !isAnalyzing && ScanButtonEnabled()
      ensures outcome.Found? ==> detectedObjects == outcome.objects && error == old(error)
      ensures outcome.Failed? ==> detectedObjects == old(detectedObjects) && error == Some(SearchFailedError)
      ensures hoveredObjectId == old(hoveredObjectId) && videoUrl == old(videoUrl) && sourceType == old(sourceType)
    {
      match outcome {
        case Found(objects) =>
          detectedObjects := objects;
        case Failed =>
          error := Some(SearchFailedError);
      }
      isAnalyzing := false;
    }

    /** The whole capture handler, for a call that completes with `outcome`
        before anything else happens on the page. */
    method HandleFrameCapture(outcome: Detection) returns (requested: bool)
      modifies this
      ensures requested <==> !old(IsYouTube())
      ensures !requested ==> error == Some(YouTubeScanError) && isAnalyzing == old(isAnalyzing)
                             && hoveredObjectId == old(hoveredObjectId) && detectedObjects == old(detectedObjects)
      ensures requested ==> !isAnalyzing && hoveredObjectId == None
      ensures requested && outcome.Found? ==> detectedObjects == outcome.objects && error == None
      ensures requested && outcome.Failed? ==> detectedObjects == old(detectedObjects) && error == Some(SearchFailedError)
      ensures videoUrl == old(videoUrl) && sourceType == old(sourceType)
    {
      requested := BeginFrameCapture();
      if requested {
        FinishFrameCapture(outcome);
      }
    }

    /** The player's play callback: the old results and the hover go away. */
    method OnPlay()
      modifies this
      ensures detectedObjects == [] && hoveredObjectId == None
      ensures videoUrl == old(videoUrl) && sourceType == old(sourceType)
      ensures isAnalyzing == old(isAnalyzing) && error == old(error)
    {
      detectedObjects := [];
      hoveredObjectId := None;
    }

    /** A card's hover report. */
    method OnHover(id: Option<string>)
      modifies this
      ensures hoveredObjectId == id
      ensures detectedObjects == old(detectedObjects) && videoUrl == old(videoUrl) && sourceType == old(sourceType)
      ensures isAnalyzing == old(isAnalyzing) && error == old(error)
    {
      hoveredObjectId := id;
    }
  }
}
