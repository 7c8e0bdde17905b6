/** How the components work together, stated over short runs of the app:
    each method builds the pages on one browser and drives them the way the
    user interface does. */
module Scenarios {
  import opened Types
  import opened Text
  import opened Web
  import UploadVideo
  import ObjectCard
  import VideoPlayer
  import Dashboard
  import Auth

  /** A reload after signing in restores the same user from the store. */
  method ReloadKeepsSignIn(email: string, password: string) returns (signedIn: Option<User>, restored: Option<User>)
    ensures signedIn == Some(User(Auth.MockUserId, email, Auth.NameFromEmail(email)))
    ensures restored == signedIn
  {
    var browser := new Browser(map[], "/login");
    var before := new Auth.AuthProvider(browser);
    before.Login(email, password);
    signedIn := before.user;
    var after := new Auth.AuthProvider(browser);
    after.Restore();
    restored := after.user;
  }

  /** A link made only of whitespace passes the emptiness check, so the empty
      string is stored as the video, and the dashboard, finding no video,
      sends the visitor back to the upload page. */
  method BlankLinkReturnsToUpload(blank: string) returns (stored: Option<string>, location: string)
    requires blank != "" && AllWhitespace(blank)
    ensures stored == Some("")
    ensures location == Dashboard.UploadPath
  {
    var browser := new Browser(map[], "/upload");
    var upload := new UploadVideo.UploadPage(browser);
    upload.SelectTab(UploadVideo.LinkTab);
    upload.EditUrl(blank);
    TrimEmptyIffAllWhitespace(blank);
    upload.HandleUrlSubmit();
    UploadVideo.StoreKeysDiffer();
    assert browser.storage[UploadVideo.LastVideoKey] == "";
    stored := browser.GetItem(UploadVideo.LastVideoKey);
    var dashboard := new Dashboard.DashboardPage(browser);
    dashboard.Mount();
    location := browser.location;
  }

  /** A scan of a paused local video draws one box per detected object;
      pressing play fires the play callback, which clears them all. */
  method ScanThenPlay(objects: seq<DetectedObject>, objectUrl: string) returns (boxesBefore: nat, boxesAfter: nat)
    requires objectUrl != ""
    ensures boxesBefore == |objects|
    ensures boxesAfter == 0
  {
    var browser := new Browser(map[], "/upload");
    var upload := new UploadVideo.UploadPage(browser);
    upload.HandleFileChange(Some(UploadVideo.ChosenFile(1024, objectUrl)));
    upload.FinishProcessing();
    UploadVideo.StoreKeysDiffer();
    assert browser.storage[UploadVideo.LastVideoKey] == objectUrl;
    assert browser.storage[UploadVideo.SourceTypeKey] == "local";
    var dashboard := new Dashboard.DashboardPage(browser);
    dashboard.Mount();
    assert dashboard.videoUrl == Some(objectUrl) && dashboard.sourceType == Some("local");
    var player := new VideoPlayer.Player(objectUrl);
    player.MediaProgress(4, 640, 360);
    var header, body := "data:image/jpeg;base64", "AAAA";
    VideoPlayer.DataUrlPayload(header, body);
    var capture := player.CaptureFrame(true, Some(header + "," + body));
    assert capture == VideoPlayer.Delivered(Some(body));
    var requested := dashboard.HandleFrameCapture(Dashboard.Found(objects));
    assert requested;
    var before := VideoPlayer.PlayerView(player.hasError, player.isPlaying, dashboard.detectedObjects, dashboard.hoveredObjectId);
    boxesBefore := |before.boxes|;
    var fired := player.TogglePlay();
    if fired {
      dashboard.OnPlay();
    }
    var after := VideoPlayer.PlayerView(player.hasError, player.isPlaying, dashboard.detectedObjects, dashboard.hoveredObjectId);
    boxesAfter := |after.boxes|;
  }

  /** Entering an object's card highlights exactly that object's box over the
      paused frame; leaving any card highlights none. */
  lemma HoverHighlightsThatBox(objects: seq<DetectedObject>, k: int)
    requires VideoPlayer.DistinctIds(objects) && 0 <= k < |objects|
    ensures var v := VideoPlayer.PlayerView(false, false, objects, ObjectCard.HoverReport(ObjectCard.Enter, objects[k]));
      |v.boxes| == |objects| && forall i :: 0 <= i < |v.boxes| ==> (v.boxes[i].highlighted <==> i == k)
    ensures var v := VideoPlayer.PlayerView(false, false, objects, ObjectCard.HoverReport(ObjectCard.Leave, objects[k]));
      forall i :: 0 <= i < |v.boxes| ==> !v.boxes[i].highlighted
  {
    var v := VideoPlayer.PlayerView(false, false, objects, ObjectCard.HoverReport(ObjectCard.Enter, objects[k]));
    forall i | 0 <= i < |v.boxes| ensures v.boxes[i].highlighted <==> i == k {
      if i < k {
        assert objects[i].id != objects[k].id;
      } else if k < i {
        assert objects[k].id != objects[i].id;
      }
    }
  }
}
