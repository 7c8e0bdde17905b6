# VisionX in Dafny

VisionX is a single-page web app for shopping from video. A visitor chooses a
video on the upload page, either a local file or a link. The dashboard plays
it. When the visitor pauses and presses *Scan Scene*, one still frame goes to
an object-detection service. The objects it finds are drawn as boxes over the
paused frame and listed as shopping cards, each with retailer badges. A mock
sign-in store keeps the current user in the browser's `localStorage`.

This project models the parts of the app that decide what happens:

- **Upload page** (`upload_video.dfy`):
  - the YouTube-link test, as a regular language and as a scan, proved equal;
  - the 100 MB size gate;
  - the two `localStorage` writes each submission makes and the redirect to the dashboard.
- **Object card** (`object_card.dfy`):
  - the retailer-badge classifier, proved equal to an ordered first-match rule table;
  - the price fallback;
  - the hover reports.
- **Dashboard** (`dashboard.dfy`):
  - restoring the chosen video on mount, or bouncing back to `/upload`;
  - the capture handler's state transitions, for a YouTube source, a completed scan and a failed scan;
  - the play callback that clears results.
- **Video player** (`video_player.dfy`):
  - play and pause;
  - the error panel, which latches once shown;
  - the capture guard;
  - extracting the base64 payload from a data URL;
  - the box overlay shown over a paused frame.
- **Sign-in store** (`auth.dfy`):
  - restore on start-up, login, register and logout;
  - the JSON record in `vl_user`, with a proved round trip (`json.dfy`).

Some JavaScript built-ins decide branches in the app, so they are modelled too (`text.dfy`):

- `String.prototype.trim`;
- `toLowerCase`, exact wherever the result is ASCII;
- `includes`;
- `split` on one character.

Components that change state step by step are classes: `Web.Browser`,
`UploadVideo.UploadPage`, `Dashboard.DashboardPage`, `VideoPlayer.Player` and
`Auth.AuthProvider`. Their methods state the complete new state, including what
stays the same. A React `useState` pair becomes a field. An event handler becomes a
method. An effect becomes a method run at the point where React would run it.

`Web.Browser` stands for one browser tab. It holds the `localStorage` map and the
router location. The pages share it, so one page's writes are what the next page reads.
`scenarios.dfy` drives several components in sequence on one browser, as the app does.

Model notes:

- **Player error panel.** `VideoPlayer.Player.SrcChanged` models the effect on
  `src` exactly as it is guarded. The effect clears `hasError` only when the
  `<video>` element is mounted. The element is unmounted whenever the error panel
  shows. So, in the code as written, a new `src` never clears an error that is
  showing. The dashboard works around this by remounting the player for every
  new URL (`key={videoUrl}`, `pages/Dashboard.tsx:75`).
- **Blank link.** The link form tests the untrimmed text for emptiness but
  stores the trimmed text. A link made only of whitespace is therefore stored as
  the empty string. On mount, the dashboard treats an empty stored value as
  missing and sends the visitor back to `/upload`. `Scenarios.BlankLinkReturnsToUpload`
  proves this run end to end.
- **Failed scan.** The dashboard's failure branch ("Search failed…") is modelled
  (`Dashboard.Detection.Failed`). The detection service swallows every error raised
  inside its `try` and returns an empty list (`services/geminiService.ts:88-91`).
  Only an error thrown before that `try` rejects the call and reaches the branch.
  One example is creating the client at `services/geminiService.ts:11`, for instance
  when no API key is configured.

## Model

| member | source | states |
|---|---|---|
| Text.Trim | pages/UploadVideo.tsx:15 | `trim()` removes exactly the leading and trailing JavaScript whitespace and line terminators. The result, when not empty, starts and ends with a non-whitespace character, and it is the contiguous middle of the input. |
| Text.TrimEmptyIffAllWhitespace | pages/UploadVideo.tsx:42-47 | The trimmed link is empty if and only if the typed link is all whitespace. |
| Text.TrimIdempotent | pages/UploadVideo.tsx:15 | Trimming twice gives the same as trimming once. |
| Text.ToLowerIdempotent | components/ObjectCard.tsx:12 | Lower-casing a lower-cased name changes nothing. |
| Text.ContainsIffOccurs | components/ObjectCard.tsx:13-20 | `includes(k)` holds exactly when `k` occurs at some index of the string. |
| Text.Split | context/AuthContext.tsx:29 | `split(sep)` yields at least one piece, and no piece contains the separator. |
| Text.JoinSplit | context/AuthContext.tsx:29 | Joining the pieces with the separator gives back the original string. |
| Text.SplitFirstPiece | context/AuthContext.tsx:29 | The first piece is the prefix before the first separator, or the whole string when there is none. |
| Text.SplitIsProper | components/VideoPlayer.tsx:42 | There is more than one piece exactly when the separator occurs. |
| UploadVideo.IsYouTubeUrlIffPattern | pages/UploadVideo.tsx:14-15 | The link test's scan accepts a string exactly when the regular expression matches it. The expression is an optional `http://` or `https://`, an optional `www.`, host `youtube.com` or `youtu.be`, a `/`, then one or more non-line-terminator characters to the end. |
| UploadVideo.ScanMatchesPattern | pages/UploadVideo.tsx:14 | Every link the scan accepts is in the regular language. |
| UploadVideo.PatternMatchesScan | pages/UploadVideo.tsx:14 | Every string in the regular language is accepted by the scan. |
| UploadVideo.BareHostIsNotYouTube | pages/UploadVideo.tsx:14 | `youtube.com/` with nothing after the slash is not a YouTube link, because the path must be non-empty. |
| UploadVideo.MobileSubdomainIsNotYouTube | pages/UploadVideo.tsx:14 | No `m.youtube.com/…` link passes the test, with or without an `http://` or `https://` scheme, because the only host prefix allowed is `www.`. |
| UploadVideo.ShortLinkIsYouTube | pages/UploadVideo.tsx:14 | Every `https://youtu.be/` link followed by one or more characters, none a line terminator, passes the test. |
| UploadVideo.UploadPage.constructor | pages/UploadVideo.tsx:6-10 | The page starts on the file tab, with an empty link, no error, and not processing. |
| UploadVideo.UploadPage.SelectTab | pages/UploadVideo.tsx:72 | Either tab button switches the mode and clears the error; the link and processing state stay. |
| UploadVideo.UploadPage.EditUrl | pages/UploadVideo.tsx:13-16 | Typing replaces the link; the YouTube flag is the link test applied to the trimmed link (`IsYoutubeLink`). |
| UploadVideo.UploadPage.HandleFileChange | pages/UploadVideo.tsx:18-38 | No file: nothing changes. A file over 100 MiB sets only the size error and leaves the store unchanged. Otherwise processing starts, the error clears, and the store gains the object URL under `vl_last_video` and `local` under `vl_source_type`. The location is unchanged in every case. |
| UploadVideo.UploadPage.FinishProcessing | pages/UploadVideo.tsx:33-36 | The delayed callback ends processing and navigates to `/dashboard`; the store is unchanged. |
| UploadVideo.UploadPage.HandleUrlSubmit | pages/UploadVideo.tsx:40-49 | An empty link changes nothing. Otherwise the store gets `youtube` or `direct` under `vl_source_type`, as the link test on the trimmed link says, the trimmed link under `vl_last_video`, and the location becomes `/dashboard`. |
| ObjectCard.PlatformStyleIsFirstMatch | components/ObjectCard.tsx:11-22 | The chain of `includes` tests on the lower-cased name computes the same badge as the first rule that fires in the ordered table amazon, myntra, flipkart, ajio, tata cliq, meesho, nykaa, official/.com/brand, with indigo as the fallback. |
| ObjectCard.ClassifyIsFirstMatch | components/ObjectCard.tsx:13-21 | The same, stated on an already lower-cased name. |
| ObjectCard.PlatformStyleFirstMatchWins | components/ObjectCard.tsx:11-20 | `getPlatformStyle` returns rule `i`'s classes if and only if the lower-cased name contains one of rule `i`'s keywords and none of an earlier rule's. |
| ObjectCard.PlatformStyleDefault | components/ObjectCard.tsx:11-21 | `getPlatformStyle` returns the indigo default classes if and only if the lower-cased name contains no keyword at all. |
| ObjectCard.PlatformStyleIgnoresCase | components/ObjectCard.tsx:12 | Names that differ only in case get the same badge. |
| ObjectCard.AmazonBeatsOfficial | components/ObjectCard.tsx:13-20 | A name containing `amazon` gets the Amazon badge even when it also contains `.com` or `official`. |
| ObjectCard.BadgeClassesDistinct | components/ObjectCard.tsx:13-21 | The nine class strings the chain can return are pairwise different, so the classes alone tell which test decided. |
| ObjectCard.FirstMatchIs | components/ObjectCard.tsx:13-21 | For any rule table with distinct badges, the first-match result is rule `i`'s badge if and only if rule `i` fires and no earlier rule does. |
| ObjectCard.FirstMatchFallback | components/ObjectCard.tsx:21 | For any rule table with distinct badges, the fallback comes out if and only if no rule fires. |
| ObjectCard.PriceLabel | components/ObjectCard.tsx:63 | A non-empty price is shown as given, and an empty one as `CHECK PRICE`, so the price line is never empty. |
| ObjectCard.HoverReport | components/ObjectCard.tsx:27-28 | Entering a card reports that object's id; leaving reports null. |
| Dashboard.DashboardPage.constructor | pages/Dashboard.tsx:10-15 | The page starts with no video and no source type, no detected objects, no hover, not analysing, and no error. |
| Dashboard.DashboardPage.Mount | pages/Dashboard.tsx:19-28 | A stored non-empty video is loaded together with the stored source type, the page renders (line 48), and the location stays. Otherwise nothing is loaded and the location becomes `/upload`. The store is not changed. |
| Dashboard.DashboardPage.BeginFrameCapture | pages/Dashboard.tsx:30-37 | The detection service is called if and only if the source is not `youtube`, which is exactly when the scan button is offered (line 94). A YouTube source gets only the explanatory error. Any other source starts analysing with the error and the hover cleared, which disables the scan button. |
| Dashboard.DashboardPage.FinishFrameCapture | pages/Dashboard.tsx:38-45 | A result replaces the objects; a thrown call sets the search-failed error and keeps the old objects. Either way analysing ends. |
| Dashboard.DashboardPage.HandleFrameCapture | pages/Dashboard.tsx:30-46 | The whole handler: YouTube source gives the error only; otherwise it ends not analysing, with the hover cleared, and with either the new objects and no error, or the old objects and the failure error. |
| Dashboard.DashboardPage.OnPlay | pages/Dashboard.tsx:79 | The play callback empties the results and clears the hover, and nothing else changes. |
| Dashboard.DashboardPage.OnHover | pages/Dashboard.tsx:153 | A card's hover report becomes the hovered id, and nothing else changes. |
| VideoPlayer.FramePayload | components/VideoPlayer.tsx:42 | `dataUrl.split(',')[1]` is defined exactly when the data URL contains a comma. It is then the text after the first comma, up to the next comma or the end, so it holds no comma. |
| VideoPlayer.DataUrlPayload | components/VideoPlayer.tsx:41-42 | For a data URL `header,body` with no other comma, the payload is exactly `body`. |
| VideoPlayer.Player.constructor | components/VideoPlayer.tsx:21-29 | The player mounts neither playing nor in error, and the media starts loading. |
| VideoPlayer.Player.SrcChanged | components/VideoPlayer.tsx:24-29 | A changed `src` reloads the media only while the video is mounted and the source is non-empty. An error that is showing stays. |
| VideoPlayer.Player.TogglePlay | components/VideoPlayer.tsx:55-67 | Under the error panel nothing happens. A paused video starts playing, and the play callback fires. A playing video pauses, and the callback does not fire. |
| VideoPlayer.Player.Fail | components/VideoPlayer.tsx:59 | A rejected `play()` or a media error shows the error panel and unmounts the video. |
| VideoPlayer.Player.Ended | components/VideoPlayer.tsx:94 | At the end of playback the player is no longer playing. |
| VideoPlayer.Player.CaptureFrame | components/VideoPlayer.tsx:31-49 | A frame is delivered if and only if no error shows, `readyState >= 2`, a 2-D context exists, and encoding succeeds. Whenever the guard passes, the canvas takes the video's size. What is delivered is the data URL's payload. |
| VideoPlayer.Percent | components/VideoPlayer.tsx:111-114 | A 0..1000 coordinate becomes a 0..100 percentage, one tenth of it. |
| VideoPlayer.PlayerView | components/VideoPlayer.tsx:75-135 | The error panel and the controls exclude each other. No box is drawn under the error panel or while playing. Otherwise there is one box per object, in order, carrying its id and highlighted exactly when its id is the hovered one. Each box's top, left, width and height are its bounding box's y, x, width and height divided by ten, as percentages. |
| VideoPlayer.BoxInsideFrame | components/VideoPlayer.tsx:110-115 | A bounding box within the 0..1000 frame is drawn within 0..100 percent. |
| Json.ParseStringify | context/AuthContext.tsx:22-30 | Parsing what `JSON.stringify` wrote for a user gives that user back. |
| Json.EscapeStringDecodes | context/AuthContext.tsx:22-30 | Every string's JSON escaping, followed by a closing quote, decodes to the string itself. |
| Auth.NameIsLocalPart | context/AuthContext.tsx:29 | The derived display name is the part of the email before its first `@`, or the whole email when it has none, and never contains `@`. |
| Auth.AuthProvider.constructor | context/AuthContext.tsx:16-17 | The provider starts with no user and loading. |
| Auth.AuthProvider.Restore | context/AuthContext.tsx:19-25 | A non-empty stored record that parses becomes the user, and loading ends. An unreadable record aborts the effect, leaving loading on. With no record the user stays and loading ends. |
| Auth.AuthProvider.Login | context/AuthContext.tsx:27-32 | The user becomes `{id: "1", email, name: local part}` whatever the password, and the store holds its JSON under `vl_user`. Memory and store agree afterwards (`InSync`). |
| Auth.AuthProvider.Register | context/AuthContext.tsx:34-39 | The user becomes `{id, email, name}` as given, its JSON is stored, and memory and store agree. |
| Auth.AuthProvider.Logout | context/AuthContext.tsx:41-44 | The user is cleared, only `vl_user` leaves the store, and memory and store agree. |
| Web.Browser.SetItem | pages/UploadVideo.tsx:30 | The store maps the key to the value and nothing else changes. |
| Web.Browser.RemoveItem | context/AuthContext.tsx:42 | The key leaves the store and nothing else changes. |
| Web.Browser.GetItem | pages/Dashboard.tsx:20-21 | `localStorage.getItem` returns the stored value when the key is present, and null exactly when it is absent. |
| Web.Browser.Navigate | pages/UploadVideo.tsx:35 | `navigate(path)` makes `path` the location and leaves the store unchanged. |
| Scenarios.ReloadKeepsSignIn | context/AuthContext.tsx:19-32 | After a login, a fresh provider on the same browser restores the same user. |
| Scenarios.BlankLinkReturnsToUpload | pages/UploadVideo.tsx:40-49 | A whitespace-only link is stored as the empty string, and the dashboard then redirects to `/upload`. |
| Scenarios.ScanThenPlay | pages/Dashboard.tsx:74-82 | After a local file is accepted, scanning a paused frame draws one box per detected object. Pressing play then clears them all. |
| Scenarios.HoverHighlightsThatBox | pages/Dashboard.tsx:153 | With distinct ids, entering object `k`'s card highlights exactly box `k`. Leaving highlights none. |

## Left out

- Seeking (`seek`, `currentTime`): the player's ±10 s buttons change only the media position, which nothing else reads.
- Timing: the 1200 ms `setTimeout` after a file is accepted is `UploadPage.FinishProcessing`, a separate step. React's batching, effect scheduling and re-renders are not modelled. An effect runs as the method for it.
- Concurrency: the capture handler's `await` is split into `BeginFrameCapture` and `FinishFrameCapture`. Events that arrive between the two are not modelled.
- The detection service (`services/geminiService.ts`) is a foreign network call. Its outcome is the `Detection` parameter.
- Browser resources: `URL.createObjectURL` is the `ChosenFile.objectUrl` parameter, and `canvas.toDataURL` is the `dataUrl` parameter of `CaptureFrame`. A missing drawing context is `contextAvailable == false`; a throw inside `try` is `dataUrl == None`. Pixels drawn to the canvas are not modelled.
- Auth.AuthProvider.Register: `Math.random().toString(36).substr(2, 9)` is the `id` parameter, so the model does not capture that the id is random or its format.
- Text.ToLower: exact for every character whose lower-case form is ASCII. Other characters are left unchanged, which does not affect whether an ASCII keyword occurs.
- Json.ParseUser: reads only the canonical layout that `JSON.stringify` writes for a `{id, email, name}` record. Other JSON documents, and `\u` escapes of surrogate code units, give `None`. The app only ever reads what it wrote.
- Auth.AuthProvider.Restore: a stored record that is valid JSON but not a user object (for example `null`) is treated as unreadable.
- ObjectCard.PriceLabel: an absent price (the service schema does not require `price`) is the empty string.
- Numbers: bounding-box coordinates and the confidence are JavaScript doubles, modelled as exact reals (`Types.BoundingBox`, `VideoPlayer.Percent`). Rounding in `value / 10` and in the CSS percentages is not captured.
- Rendering: confidence percentages (`Math.round`), the upper-cased label on each box, CSS classes other than the badge colours, and the order of cards are not modelled.
- ObjectCard.HoverReport: a card rendered without an `onHover` listener reports nothing. The dashboard always passes one, so the model always reports.
- The pages `Home`, `Login`, `Register` and `Navbar` only render forms and links around the modelled operations, and are not part of this model.
- `VideoSource` in `types.ts` is not used by the modelled components.
