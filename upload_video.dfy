/** The upload page: a local file or a pasted link becomes the video the
    dashboard plays, recorded in the browser store under `vl_last_video`
    and `vl_source_type`. */
module UploadVideo {
  import opened Types
  import opened Text
  import opened Web

  const LastVideoKey := "vl_last_video"
  const SourceTypeKey := "vl_source_type"
  const DashboardPath := "/dashboard"

  lemma StoreKeysDiffer()
    ensures LastVideoKey != SourceTypeKey
  {
    assert LastVideoKey[3] != SourceTypeKey[3];
  }

  /** 100 MB, counted in bytes. */
  const MaxUploadBytes: nat := 100 * 1024 * 1024
  const FileTooLargeError := "File size exceeds 100MB. Please choose a smaller video."

  function HasPrefix(s: string, p: string): bool {
    |p| <= |s| && s[..|p|] == p
  }

  // ---------------------------------------------------------------------
  // The link test /^(https?:\/\/)?(www\.)?(youtube\.com|youtu\.be)\/.+$/
  // ---------------------------------------------------------------------

  const Schemes: set<string> := {"", "http://", "https://"}
  const WwwPrefixes: set<string> := {"", "www."}
  const Hosts: set<string> := {"youtube.com", "youtu.be"}

  /** `.+$`: at least one code point, none of them a line terminator. */
  predicate AnyLine(rest: string) {
    |rest| >= 1 && forall i :: 0 <= i < |rest| ==> !IsLineTerminator(rest[i])
  }

  /** `s` is matched by one concrete alternative of the pattern: the chosen
      scheme, then the chosen `www.`, then the chosen host and `/`, then the
      rest of the line, consumed left to right. */
  ghost predicate MatchesWith(s: string, scheme: string, www: string, host: string) {
    && HasPrefix(s, scheme)
    && var s1 := s[|scheme|..];
    && HasPrefix(s1, www)
    && var s2 := s1[|www|..];
    && HasPrefix(s2, host + "/")
    && AnyLine(s2[|host| + 1..])
  }

  /** The language of the regular expression: some choice of the optional
      groups and of the host alternative matches the whole string. */
  ghost predicate YouTubePattern(s: string) {
    exists scheme, www, host ::
      scheme in Schemes && www in WwwPrefixes && host in Hosts && MatchesWith(s, scheme, www, host)
  }

  function StripScheme(s: string): string {
    if HasPrefix(s, "https://") then s[8..]
    else if HasPrefix(s, "http://") then s[7..]
    else s
  }

  function StripWww(s: string): string {
    if HasPrefix(s, "www.") then s[4..] else s
  }

  /** The test as a left-to-right scan: the optional groups are taken
      whenever they are present, then a host and a non-empty rest. */
  predicate IsYouTubeUrl(s: string) {
    var h := StripWww(StripScheme(s));
    || (HasPrefix(h, "youtube.com/") && AnyLine(h[12..]))
    || (HasPrefix(h, "youtu.be/") && AnyLine(h[9..]))
  }

  lemma PrefixAt(s: string, p: string, i: int)
    requires HasPrefix(s, p) && 0 <= i < |p|
    ensures s[i] == p[i]
  {
    assert s[..|p|][i] == s[i];
  }

  lemma NotPrefixAt(s: string, p: string, i: int)
    requires 0 <= i < |p| && (i < |s| ==> s[i] != p[i])
    ensures !HasPrefix(s, p)
  {
    if HasPrefix(s, p) { PrefixAt(s, p, i); }
  }

  /** Once the scheme has been chosen, and `www.` or a host follows it, the
      scan strips exactly that scheme. */
  lemma StripSchemeOf(s: string, scheme: string)
    requires scheme in Schemes && HasPrefix(s, scheme)
    requires |scheme| < |s| && (s[|scheme|] == 'w' || s[|scheme|] == 'y')
    ensures StripScheme(s) == s[|scheme|..]
  {
    if scheme == "" {
      NotPrefixAt(s, "https://", 0);
      NotPrefixAt(s, "http://", 0);
    } else if scheme == "http://" {
      PrefixAt(s, "http://", 4);
      NotPrefixAt(s, "https://", 4);
    }
  }

  lemma StripWwwOf(s: string, www: string)
    requires www in WwwPrefixes && HasPrefix(s, www)
    requires |www| < |s| && s[|www|] == 'y'
    ensures StripWww(s) == s[|www|..]
  {
    if www == "" {
      NotPrefixAt(s, "www.", 0);
    }
  }

  /** The scheme the scan removes is one of the pattern's choices. */
  lemma SchemeRemoved(s: string) returns (scheme: string)
    ensures scheme in Schemes && HasPrefix(s, scheme) && StripScheme(s) == s[|scheme|..]
  {
    if HasPrefix(s, "https://") {
      scheme := "https://";
    } else if HasPrefix(s, "http://") {
      scheme := "http://";
    } else {
      scheme := "";
    }
  }

  lemma WwwRemoved(s: string) returns (www: string)
    ensures www in WwwPrefixes && HasPrefix(s, www) && StripWww(s) == s[|www|..]
  {
    www := if HasPrefix(s, "www.") then "www." else "";
  }

  /** Whatever the scan accepts, the regular expression matches. */
  lemma ScanMatchesPattern(s: string)
    requires IsYouTubeUrl(s)
    ensures YouTubePattern(s)
  {
    var scheme := SchemeRemoved(s);
    var www := WwwRemoved(StripScheme(s));
    var h := StripWww(StripScheme(s));
    var host := if HasPrefix(h, "youtube.com/") && AnyLine(h[12..]) then "youtube.com" else "youtu.be";
    assert |host + "/"| == |host| + 1;
    assert MatchesWith(s, scheme, www, host);
  }

  /** One alternative of the pattern that matches is found by the scan. */
  lemma AlternativeMatchesScan(s: string, scheme: string, www: string, host: string)
    requires scheme in Schemes && www in WwwPrefixes && host in Hosts
    requires MatchesWith(s, scheme, www, host)
    ensures IsYouTubeUrl(s)
  {
    var s1 := s[|scheme|..];
    var s2 := s1[|www|..];
    var tail := host + "/";
    assert tail[0] == 'y' by {
      if host == "youtube.com" { assert tail == "youtube.com/"; } else { assert tail == "youtu.be/"; }
    }
    PrefixAt(s2, tail, 0);
    if www == "" {
      assert s[|scheme|] == 'y';
    } else {
      PrefixAt(s1, www, 0);
      assert s[|scheme|] == 'w';
    }
    StripSchemeOf(s, scheme);
    StripWwwOf(s1, www);
    assert StripWww(StripScheme(s)) == s2;
  }

  /** Whatever the regular expression matches, the scan accepts. */
  lemma PatternMatchesScan(s: string)
    requires YouTubePattern(s)
    ensures IsYouTubeUrl(s)
  {
    var scheme, www, host :| scheme in Schemes && www in WwwPrefixes && host in Hosts && MatchesWith(s, scheme, www, host);
    AlternativeMatchesScan(s, scheme, www, host);
  }

  /** The scan decides exactly the language of the regular expression. */
  lemma IsYouTubeUrlIffPattern(s: string)
    ensures IsYouTubeUrl(s) <==> YouTubePattern(s)
  {
    if IsYouTubeUrl(s) { ScanMatchesPattern(s); }
    if YouTubePattern(s) { PatternMatchesScan(s); }
  }

  /** A host with nothing after its slash is not a video link. */
  lemma BareHostIsNotYouTube()
    ensures !IsYouTubeUrl("youtube.com/")
  {
    var s := "youtube.com/";
    NotPrefixAt(s, "https://", 0);
    NotPrefixAt(s, "http://", 0);
    NotPrefixAt(s, "www.", 0);
    NotPrefixAt(s, "youtu.be/", 5);
    assert s[12..] == [];
  }

  /** Other subdomains are not accepted, whatever follows. */
  lemma MobileSubdomainIsNotYouTube(scheme: string, rest: string)
    requires scheme in Schemes
    ensures !IsYouTubeUrl(scheme + "m.youtube.com/" + rest)
  {
    var t := "m.youtube.com/" + rest;
    var s := scheme + "m.youtube.com/" + rest;
    assert s == scheme + t;
    assert t[0] == 'm';
    if scheme == "https://" {
      assert s[..8] == scheme && s[8..] == t;
    } else if scheme == "http://" {
      assert s[4] == ':';
      NotPrefixAt(s, "https://", 4);
      assert s[..7] == scheme && s[7..] == t;
    } else {
      assert s == t;
      NotPrefixAt(t, "https://", 0);
      NotPrefixAt(t, "http://", 0);
    }
    assert StripScheme(s) == t;
    NotPrefixAt(t, "www.", 0);
    NotPrefixAt(t, "youtube.com/", 0);
    NotPrefixAt(t, "youtu.be/", 0);
  }

  lemma ShortLinkIsYouTube(rest: string)
    requires AnyLine(rest)
    ensures IsYouTubeUrl("https://youtu.be/" + rest)
  {
    var s := "https://youtu.be/" + rest;
    assert s[..8] == "https://";
    var t := s[8..];
    assert t == "youtu.be/" + rest;
    NotPrefixAt(t, "www.", 0);
    assert t[..9] == "youtu.be/";
    assert t[9..] == rest;
  }

  // ---------------------------------------------------------------------
  // The page
  // ---------------------------------------------------------------------

  datatype Tab = FileTab | LinkTab

  /** A chosen file: its size in bytes and the object URL the browser hands out for it. */
  datatype ChosenFile = ChosenFile(size: nat, objectUrl: string)

  class UploadPage {
    const browser: Browser
    var tab: Tab
    var url: string
    var isProcessing: bool
    var error: Option<string>

    /** The `isYoutubeUrl` flag, which the effect on `url` recomputes after
        every edit; modelled as derived from the link it follows. */
    predicate IsYoutubeLink()
      reads this
    {
      IsYouTubeUrl(Trim(url))
    }

    constructor(browser: Browser)
      ensures this.browser == browser
      ensures tab == FileTab && url == "" && !isProcessing && error == None
    {
      this.browser := browser;
      tab, url, isProcessing, error := FileTab, "", false, None;
    }

    /** Either tab button: switches the input mode and clears the error. */
    method SelectTab(t: Tab)
      modifies this
      ensures tab == t && error == None
      ensures url == old(url) && isProcessing == old(isProcessing)
    {
      tab := t;
      error := None;
    }

    /** Typing in the link box, followed by the effect that re-runs the test. */
    method EditUrl(text: string)
      modifies this
      ensures url == text
      ensures tab == old(tab) && isProcessing == old(isProcessing) && error == old(error)
    {
      url := text;
    }

    /** The file input's change handler. No file: nothing happens. Too large:
        only the error is set. Otherwise processing starts, the error is
        cleared and the file is recorded as a `local` source. */
    method HandleFileChange(file: Option<ChosenFile>)
      modifies this, browser
      ensures tab == old(tab) && url == old(url)
      ensures browser.location == old(browser.location)
      ensures file.None? ==> error == old(error) && isProcessing == old(isProcessing)
                             && browser.storage == old(browser.storage)
      ensures file.Some? && file.value.size > MaxUploadBytes ==>
                error == Some(FileTooLargeError) && isProcessing == old(isProcessing)
                && browser.storage == old(browser.storage)
      ensures file.Some? && file.value.size <= MaxUploadBytes ==>
                error == None && isProcessing
                && browser.storage == old(browser.storage)[LastVideoKey := file.value.objectUrl][SourceTypeKey := "local"]
    {
      if file.Some? {
        if file.value.size > MaxUploadBytes {
          error := Some(FileTooLargeError);
          return;
        }
        isProcessing := true;
        error := None;
        browser.SetItem(LastVideoKey, file.value.objectUrl);
        browser.SetItem(SourceTypeKey, "local");
      }
    }

    /** The delayed callback scheduled by an accepted file. */
    method FinishProcessing()
      modifies this, browser
      ensures !isProcessing && browser.location == DashboardPath
      ensures tab == old(tab) && url == old(url) && error == old(error)
      ensures browser.storage == old(browser.storage)
    {
      isProcessing := false;
      browser.Navigate(DashboardPath);
    }

    /** The link form's submit handler. An empty box does nothing; otherwise
        the source type follows the link test and the trimmed link is stored. */
    method HandleUrlSubmit()
      modifies browser
      ensures url == "" ==> browser.storage == old(browser.storage) && browser.location == old(browser.location)
      ensures url != "" ==>
                browser.storage == old(browser.storage)
                  [SourceTypeKey := if IsYouTubeUrl(Trim(url)) then "youtube" else "direct"]
                  [LastVideoKey := Trim(url)]
                && browser.location == DashboardPath
    {
      if url == "" {
        return;
      }
      if IsYoutubeLink() {
        browser.SetItem(SourceTypeKey, "youtube");
      } else {
        browser.SetItem(SourceTypeKey, "direct");
      }
      browser.SetItem(LastVideoKey, Trim(url));
      browser.Navigate(DashboardPath);
    }
  }
}
