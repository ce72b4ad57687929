/**
 Classification of a resource URL into video, document or web, and the
 extraction of a YouTube video id and an Instagram reel id
 (src/utils/resourceTypes.ts). Each regular expression of the source is
 written as the substring, suffix or prefix-and-run predicate it tests.
 */
module ResourceTypes {
  import opened Options
  import opened Text
  import opened Patterns

  /** The derived category of a URL. */
  datatype ResourceType = Video | Document | Web

  /** How a category is displayed. */
  datatype ResourceTypeConfig = ResourceTypeConfig(icon: string, labelText: string, aspectRatio: string, minHeight: string)

  /**
   The RESOURCE_TYPES table: each category is labelled with its own name
   and has an icon of its own (camera, page, globe).
   */
  function Config(t: ResourceType): (c: ResourceTypeConfig)
    ensures c.labelText == "Video" <==> t == Video
    ensures c.labelText == "Document" <==> t == Document
    ensures c.labelText == "Web" <==> t == Web
    ensures c.icon == "\U{1F3A5}" <==> t == Video
    ensures c.icon == "\U{1F4C4}" <==> t == Document
    ensures c.icon == "\U{1F310}" <==> t == Web
  {
    match t
    case Video => ResourceTypeConfig("\U{1F3A5}", "Video", "16/9", "300px")
    case Document => ResourceTypeConfig("\U{1F4C4}", "Document", "1/1.414", "400px")
    case Web => ResourceTypeConfig("\U{1F310}", "Web", "1/1", "250px")
  }

  // ---------------------------------------------------------------------
  // detectResourceType

  /** What `/(youtube\.com|youtu\.be)/` or `/instagram\.com\/reel/` finds. */
  ghost predicate IsVideoUrl(url: string) {
    Occurs(url, "youtube.com") || Occurs(url, "youtu.be") || Occurs(url, "instagram.com/reel")
  }

  /** `/\.(pdf|docx?)$/`: the whole string ends in one of the three extensions, case-sensitively. */
  predicate HasDocumentExtension(url: string) {
    EndsWith(url, ".pdf") || EndsWith(url, ".doc") || EndsWith(url, ".docx")
  }

  /**
   `detectResourceType`: the video tests come first and win over the
   extension test; everything else, however malformed, is web.
   */
  function DetectResourceType(url: string): (r: ResourceType)
    ensures r == Video <==> IsVideoUrl(url)
    ensures r == Document <==> !IsVideoUrl(url) && HasDocumentExtension(url)
    ensures r == Web <==> !IsVideoUrl(url) && !HasDocumentExtension(url)
  {
    if Includes(url, "youtube.com") || Includes(url, "youtu.be") || Includes(url, "instagram.com/reel") then
      Video
    else if HasDocumentExtension(url) then
      Document
    else
      Web
  }

  /** A URL that mentions YouTube anywhere is a video, even when it ends in a document extension. */
  lemma YouTubeWinsOverExtension(front: string, back: string)
    ensures DetectResourceType(front + "youtu.be" + back) == Video
    ensures DetectResourceType(front + "youtube.com" + back) == Video
  {
    var s := front + "youtu.be" + back;
    assert HasAt(s, |front|, "youtu.be") by { assert s[|front|..|front| + 8] == "youtu.be"; }
    var t := front + "youtube.com" + back;
    assert HasAt(t, |front|, "youtube.com") by { assert t[|front|..|front| + 11] == "youtube.com"; }
  }

  /** Every video pattern starts with 'y' or 'i'. */
  lemma NotVideoWithoutYAndI(url: string)
    requires 'y' !in url && 'i' !in url
    ensures !IsVideoUrl(url)
  {
    NotOccursWithoutChar(url, "youtube.com", 0);
    NotOccursWithoutChar(url, "youtu.be", 0);
    NotOccursWithoutChar(url, "instagram.com/reel", 0);
  }

  /** A URL outside the video patterns that ends in ".pdf", ".doc" or ".docx" is a document. */
  lemma DocumentByExtension(front: string, ext: string)
    requires ext == ".pdf" || ext == ".doc" || ext == ".docx"
    requires !IsVideoUrl(front + ext)
    ensures DetectResourceType(front + ext) == Document
  {
    assert (front + ext)[|front|..] == ext;
  }

  /** The extension test is case-sensitive: a URL outside the video patterns ending in ".PDF" is web. */
  lemma UpperCaseExtensionIsWeb(front: string)
    requires !IsVideoUrl(front + ".PDF")
    ensures DetectResourceType(front + ".PDF") == Web
  {
    var s := front + ".PDF";
    assert s[|s| - 1] == 'F';
    assert !EndsWith(s, ".pdf") && !EndsWith(s, ".doc") by {
      assert s[|s| - 4..][3] == s[|s| - 1];
    }
    assert !EndsWith(s, ".docx") by {
      if |s| >= 5 {
        assert s[|s| - 5..][4] == s[|s| - 1];
      }
    }
  }

  /** The extension must end the string: a query after it hides it. */
  lemma QueryAfterExtensionIsWeb(front: string)
    requires !IsVideoUrl(front + ".pdf?x=1")
    ensures DetectResourceType(front + ".pdf?x=1") == Web
  {
    var s := front + ".pdf?x=1";
    assert s[|s| - 1] == '1';
    assert !EndsWith(s, ".pdf") && !EndsWith(s, ".doc") by {
      assert s[|s| - 4..][3] == s[|s| - 1];
    }
    assert !EndsWith(s, ".docx") by {
      assert s[|s| - 5..][4] == s[|s| - 1];
    }
  }

  /** "instagram.com/reels" contains "instagram.com/reel", so a reels path is a video too. */
  lemma ReelsPathIsVideo(front: string, back: string)
    ensures DetectResourceType(front + "instagram.com/reels" + back) == Video
  {
    var s := front + "instagram.com/reels" + back;
    assert HasAt(s, |front|, "instagram.com/reel") by {
      assert s[|front|..|front| + 18] == "instagram.com/reel";
    }
  }

  // ---------------------------------------------------------------------
  // getYouTubeVideoId and getInstagramReelId

  /** The alternatives of `/(?:youtube\.com\/watch\?v=|youtu\.be\/)([^&\s]+)/`. */
  const YouTubePrefixes: seq<string> := ["youtube.com/watch?v=", "youtu.be/"]

  /** The class `[^&\s]`. */
  predicate IsYouTubeIdChar(c: char) {
    c != '&' && !IsJsWhitespace(c)
  }

  /** The alternative of `/instagram\.com\/reel\/([^/?]+)/`. */
  const ReelPrefixes: seq<string> := ["instagram.com/reel/"]

  /** The class `[^/?]`. */
  predicate IsReelIdChar(c: char) {
    c != '/' && c != '?'
  }

  /**
   `getYouTubeVideoId`: null exactly when no "youtube.com/watch?v=" or
   "youtu.be/" is followed by an id character; otherwise the id of the
   leftmost such occurrence, as long as it can be made.
   */
  function GetYouTubeVideoId(url: string): (r: Option<string>)
    ensures r.None? <==> forall i: nat ::
      !MatchesAt(url, i, "youtube.com/watch?v=", IsYouTubeIdChar) && !MatchesAt(url, i, "youtu.be/", IsYouTubeIdChar)
    ensures r.Some? ==> exists sp :: IsLeftmostMatch(url, YouTubePrefixes, IsYouTubeIdChar, sp) && r.value == url[sp.start..sp.end]
  {
    var r := Capture(url, YouTubePrefixes, IsYouTubeIdChar);
    assert r.None? <== forall i: nat ::
      !MatchesAt(url, i, "youtube.com/watch?v=", IsYouTubeIdChar) && !MatchesAt(url, i, "youtu.be/", IsYouTubeIdChar)
    by {
      if r.Some? {
        var i: nat, k :| 0 <= k < |YouTubePrefixes| && MatchesAt(url, i, YouTubePrefixes[k], IsYouTubeIdChar);
        assert k == 0 || k == 1;
      }
    }
    r
  }

  /**
   `getInstagramReelId`: null exactly when no "instagram.com/reel/" is
   followed by a character other than '/' and '?'; otherwise the id of the
   leftmost such occurrence, as long as it can be made.
   */
  function GetInstagramReelId(url: string): (r: Option<string>)
    ensures r.None? <==> forall i: nat :: !MatchesAt(url, i, "instagram.com/reel/", IsReelIdChar)
    ensures r.Some? ==> exists sp :: IsLeftmostMatch(url, ReelPrefixes, IsReelIdChar, sp) && r.value == url[sp.start..sp.end]
  {
    var r := Capture(url, ReelPrefixes, IsReelIdChar);
    assert r.None? <== forall i: nat :: !MatchesAt(url, i, "instagram.com/reel/", IsReelIdChar) by {
      if r.Some? {
        var i: nat, k :| 0 <= k < |ReelPrefixes| && MatchesAt(url, i, ReelPrefixes[k], IsReelIdChar);
        assert k == 0;
      }
    }
    r
  }

  /**
   What a captured id looks like in the URL: it is non-empty, made of class
   characters only, sits right after one of the prefixes, and cannot be
   extended (it is followed by a character outside the class or by the end).
   */
  ghost predicate IsMaximalIdAfter(url: string, prefixes: seq<string>, ok: char -> bool, id: string) {
    && |id| > 0
    && (forall m :: 0 <= m < |id| ==> ok(id[m]))
    && exists i: nat, k :: 0 <= k < |prefixes| && HasAt(url, i, prefixes[k] + id)
                         && (i + |prefixes[k]| + |id| == |url| || !ok(url[i + |prefixes[k]| + |id|]))
  }

  lemma {:induction false} CapturedIdIsMaximal(url: string, prefixes: seq<string>, ok: char -> bool, sp: Span)
    requires IsLeftmostMatch(url, prefixes, ok, sp)
    ensures IsMaximalIdAfter(url, prefixes, ok, url[sp.start..sp.end])
  {
    var k :| 0 <= k < |prefixes| && MatchesAt(url, sp.at, prefixes[k], ok) && sp.start == sp.at + |prefixes[k]|
             && forall j :: 0 <= j < k ==> !MatchesAt(url, sp.at, prefixes[j], ok);
    RunAfterPrefixIsMaximal(url, prefixes, ok, sp, k);
  }

  /** The run after an occurrence of a prefix, when nothing can extend it, is a maximal id. */
  lemma RunAfterPrefixIsMaximal(url: string, prefixes: seq<string>, ok: char -> bool, sp: Span, k: nat)
    requires k < |prefixes| && HasAt(url, sp.at, prefixes[k]) && sp.start == sp.at + |prefixes[k]|
    requires sp.start < sp.end <= |url| && forall m :: sp.start <= m < sp.end ==> ok(url[m])
    requires sp.end == |url| || !ok(url[sp.end])
    ensures IsMaximalIdAfter(url, prefixes, ok, url[sp.start..sp.end])
  {
    var id := url[sp.start..sp.end];
    var p := prefixes[k];
    assert forall m :: 0 <= m < |id| ==> ok(id[m]) by {
      forall m | 0 <= m < |id| ensures ok(id[m]) {
        assert id[m] == url[sp.start + m];
      }
    }
    assert url[sp.at..sp.end] == p + id by {
      assert url[sp.at..sp.end] == url[sp.at..sp.start] + url[sp.start..sp.end];
    }
    assert HasAt(url, sp.at, prefixes[k] + id);
  }

  /** A YouTube id that is found is a non-empty, maximal run of `[^&\s]` after a prefix. */
  lemma YouTubeIdIsMaximal(url: string)
    requires GetYouTubeVideoId(url).Some?
    ensures IsMaximalIdAfter(url, YouTubePrefixes, IsYouTubeIdChar, GetYouTubeVideoId(url).value)
  {
    var sp :| IsLeftmostMatch(url, YouTubePrefixes, IsYouTubeIdChar, sp) && GetYouTubeVideoId(url).value == url[sp.start..sp.end];
    CapturedIdIsMaximal(url, YouTubePrefixes, IsYouTubeIdChar, sp);
  }

  /** A reel id that is found is a non-empty, maximal run of `[^/?]` after "instagram.com/reel/". */
  lemma ReelIdIsMaximal(url: string)
    requires GetInstagramReelId(url).Some?
    ensures IsMaximalIdAfter(url, ReelPrefixes, IsReelIdChar, GetInstagramReelId(url).value)
  {
    var sp :| IsLeftmostMatch(url, ReelPrefixes, IsReelIdChar, sp) && GetInstagramReelId(url).value == url[sp.start..sp.end];
    CapturedIdIsMaximal(url, ReelPrefixes, IsReelIdChar, sp);
  }

  /** Each extraction prefix begins with the host a video test looks for. */
  lemma PrefixesNameHosts()
    ensures HasAt("youtube.com/watch?v=", 0, "youtube.com")
    ensures HasAt("youtu.be/", 0, "youtu.be")
    ensures HasAt("instagram.com/reel/", 0, "instagram.com/reel")
  {
  }

  /** Whenever a YouTube id can be extracted, the URL is classified as a video. */
  lemma YouTubeIdMeansVideo(url: string)
    requires GetYouTubeVideoId(url).Some?
    ensures DetectResourceType(url) == Video
  {
    var i: nat :| MatchesAt(url, i, "youtube.com/watch?v=", IsYouTubeIdChar) || MatchesAt(url, i, "youtu.be/", IsYouTubeIdChar);
    PrefixesNameHosts();
    if MatchesAt(url, i, "youtube.com/watch?v=", IsYouTubeIdChar) {
      OccursWithin(url, i, "youtube.com/watch?v=", 0, "youtube.com");
    } else {
      OccursWithin(url, i, "youtu.be/", 0, "youtu.be");
    }
  }

  /** Whenever a reel id can be extracted, the URL is classified as a video. */
  lemma ReelIdMeansVideo(url: string)
    requires GetInstagramReelId(url).Some?
    ensures DetectResourceType(url) == Video
  {
    var i: nat :| MatchesAt(url, i, "instagram.com/reel/", IsReelIdChar);
    PrefixesNameHosts();
    OccursWithin(url, i, "instagram.com/reel/", 0, "instagram.com/reel");
  }

  /** The contract of GetYouTubeVideoId determines its result: the group of the leftmost match. */
  lemma YouTubeIdOfLeftmostMatch(url: string, sp: Span)
    requires IsLeftmostMatch(url, YouTubePrefixes, IsYouTubeIdChar, sp)
    ensures GetYouTubeVideoId(url) == Some(url[sp.start..sp.end])
  {
    var k :| 0 <= k < |YouTubePrefixes| && MatchesAt(url, sp.at, YouTubePrefixes[k], IsYouTubeIdChar);
    assert MatchesAt(url, sp.at, "youtube.com/watch?v=", IsYouTubeIdChar) || MatchesAt(url, sp.at, "youtu.be/", IsYouTubeIdChar);
    var found :| IsLeftmostMatch(url, YouTubePrefixes, IsYouTubeIdChar, found)
                 && GetYouTubeVideoId(url).value == url[found.start..found.end];
    LeftmostMatchUnique(url, YouTubePrefixes, IsYouTubeIdChar, sp, found);
  }

  /** The contract of GetInstagramReelId determines its result: the group of the leftmost match. */
  lemma ReelIdOfLeftmostMatch(url: string, sp: Span)
    requires IsLeftmostMatch(url, ReelPrefixes, IsReelIdChar, sp)
    ensures GetInstagramReelId(url) == Some(url[sp.start..sp.end])
  {
    assert MatchesAt(url, sp.at, "instagram.com/reel/", IsReelIdChar);
    var found :| IsLeftmostMatch(url, ReelPrefixes, IsReelIdChar, found)
                 && GetInstagramReelId(url).value == url[found.start..found.end];
    LeftmostMatchUnique(url, ReelPrefixes, IsReelIdChar, sp, found);
  }

  /** Letters and digits belong to both id classes. */
  lemma LettersAndDigitsAreIdChars(id: string)
    requires forall m :: 0 <= m < |id| ==> '0' <= id[m] <= '9' || 'A' <= id[m] <= 'Z' || 'a' <= id[m] <= 'z'
    ensures forall m :: 0 <= m < |id| ==> IsYouTubeIdChar(id[m]) && IsReelIdChar(id[m])
  {
  }

  /** "https://youtu.be/abc123": the id follows the second alternative. */
  const ShortLink := "https://" + YouTubePrefixes[1] + "abc123" + ""

  /** Where the leftmost match of GetYouTubeVideoId lies in ShortLink. */
  lemma ShortLinkMatch()
    ensures IsLeftmostMatch(ShortLink, YouTubePrefixes, IsYouTubeIdChar, Span(8, 17, 23))
    ensures ShortLink[17..23] == "abc123"
  {
    var pre, id := "https://", "abc123";
    assert forall i, j :: 0 <= i < |pre| && 0 <= j < |YouTubePrefixes| ==> pre[i] != YouTubePrefixes[j][0] by {
      assert YouTubePrefixes[0][0] == YouTubePrefixes[1][0] == 'y';
    }
    LettersAndDigitsAreIdChars(id);
    assert !MatchesAt(ShortLink, 8, YouTubePrefixes[0], IsYouTubeIdChar) by {
      assert |ShortLink| < 8 + |YouTubePrefixes[0]|;
    }
    MatchOfJoin(pre, YouTubePrefixes, 1, id, "", IsYouTubeIdChar);
  }

  /** The id of ShortLink is "abc123". */
  lemma ShortLinkExample()
    ensures GetYouTubeVideoId(ShortLink) == Some("abc123")
  {
    ShortLinkMatch();
    YouTubeIdOfLeftmostMatch(ShortLink, Span(8, 17, 23));
  }

  /** "https://www.youtube.com/watch?v=dQw4w9&t=42": a further query parameter follows the id. */
  const WatchLink := "https://www." + YouTubePrefixes[0] + "dQw4w9" + "&t=42"

  /** Where the leftmost match of GetYouTubeVideoId lies in WatchLink. */
  lemma WatchLinkMatch()
    ensures IsLeftmostMatch(WatchLink, YouTubePrefixes, IsYouTubeIdChar, Span(12, 32, 38))
    ensures WatchLink[32..38] == "dQw4w9"
  {
    var pre, id := "https://www.", "dQw4w9";
    assert forall i, j :: 0 <= i < |pre| && 0 <= j < |YouTubePrefixes| ==> pre[i] != YouTubePrefixes[j][0] by {
      assert YouTubePrefixes[0][0] == YouTubePrefixes[1][0] == 'y';
    }
    LettersAndDigitsAreIdChars(id);
    MatchOfJoin(pre, YouTubePrefixes, 0, id, "&t=42", IsYouTubeIdChar);
  }

  /** The id of a watch URL stops at the '&' of the next query parameter. */
  lemma WatchLinkExample()
    ensures GetYouTubeVideoId(WatchLink) == Some("dQw4w9")
  {
    WatchLinkMatch();
    YouTubeIdOfLeftmostMatch(WatchLink, Span(12, 32, 38));
  }

  /** A URL without a YouTube prefix has no id. */
  lemma NoYouTubeIdExample()
    ensures GetYouTubeVideoId("https://example.com") == None
  {
    var s := "https://example.com";
    NoMatchAwayFromFirstChar(s, 0, |s|, YouTubePrefixes, IsYouTubeIdChar);
  }

  /** "https://www.instagram.com/reel/Cx9z/?igsh=1": the path goes on after the id. */
  const ReelLink := "https://www." + ReelPrefixes[0] + "Cx9z" + "/?igsh=1"

  /** Where the leftmost match of GetInstagramReelId lies in ReelLink. */
  lemma ReelMatch()
    ensures IsLeftmostMatch(ReelLink, ReelPrefixes, IsReelIdChar, Span(12, 31, 35))
    ensures ReelLink[31..35] == "Cx9z"
  {
    var pre, id := "https://www.", "Cx9z";
    assert forall i, j :: 0 <= i < |pre| && 0 <= j < |ReelPrefixes| ==> pre[i] != ReelPrefixes[j][0] by {
      assert ReelPrefixes[0][0] == 'i';
    }
    LettersAndDigitsAreIdChars(id);
    MatchOfJoin(pre, ReelPrefixes, 0, id, "/?igsh=1", IsReelIdChar);
  }

  /** A reel id stops at the next '/'. */
  lemma ReelExample()
    ensures GetInstagramReelId(ReelLink) == Some("Cx9z")
  {
    ReelMatch();
    ReelIdOfLeftmostMatch(ReelLink, Span(12, 31, 35));
  }

  /**
   A "/reels" path has no reel id, although ReelsPathIsVideo puts it in the
   video category: after "instagram.com/reel" comes 's', not '/'. This
   holds whatever surrounds the path, as long as neither side holds a reel
   path of its own.
   */
  lemma ReelsPathHasNoReelId(front: string, back: string)
    requires !Occurs(front, "instagram.com/reel/") && !Occurs(back, "instagram.com/reel/")
    ensures GetInstagramReelId(front + "instagram.com/reels" + back) == None
  {
    var p := "instagram.com/reel/";
    var mid := "instagram.com/reels";
    var s := front + mid + back;
    var at := |front|;
    assert forall k :: 1 <= k < |p| ==> p[k] != 'i';
    assert forall k :: 1 <= k < |mid| ==> mid[k] != 'i';
    forall i: nat ensures !HasAt(s, i, p) {
      if i + |p| <= |s| {
        if i + |p| <= at {
          // Inside front.
          assert s[i..i + |p|] == front[i..i + |p|];
          assert !HasAt(front, i, p);
        } else if at + |mid| <= i {
          // Inside back.
          var j := i - at - |mid|;
          assert s[i..i + |p|] == back[j..j + |p|];
          assert !HasAt(back, j, p);
        } else if i < at {
          // Overlapping the path from the left: the path's 'i' meets a later character of p.
          assert s[at] == mid[0] == 'i' && p[at - i] != 'i';
          assert s[i..i + |p|][at - i] == s[at];
        } else if i == at {
          // At the path: 's' where p has '/'.
          assert s[i..i + |p|][18] == s[at + 18] == mid[18] == 's';
        } else {
          // Starting inside the path: no 'i' there.
          assert s[i..i + |p|][0] == s[i] == mid[i - at] != 'i';
        }
      }
    }
  }

  // ---------------------------------------------------------------------
  // getFaviconUrl

  /** The favicon service address, up to the host name. */
  const FaviconPrefix := "https://www.google.com/s2/favicons?domain="

  /**
   `getFaviconUrl`. `host` is what the platform's URL parser gives: the
   host name, or None where the constructor throws.
   */
  function GetFaviconUrl(host: Option<string>): (r: string)
    ensures host.None? <==> r == ""
    ensures host.Some? ==> FaviconPrefix <= r && HasAt(r, |FaviconPrefix|, host.value)
    ensures host.Some? ==> EndsWith(r, "&sz=128")
    ensures host.Some? ==> |r| == |FaviconPrefix| + |host.value| + 7
  {
    match host
    case None => ""
    case Some(h) =>
      var r := FaviconPrefix + h + "&sz=128";
      HasAtJoin(FaviconPrefix, h, "&sz=128");
      r
  }

  /** The favicon address of a parsed URL names its host. */
  lemma FaviconNamesHost(host: string)
    ensures Occurs(GetFaviconUrl(Some(host)), host)
  {
  }
}
