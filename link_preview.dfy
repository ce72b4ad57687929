/**
 The preview classification stored with a link resource: a URL of a
 video host is previewed as a video, every other URL as a plain link.
 Its set of video hosts is not the one the resource categories use.
 */
module LinkPreview {
  import opened Options
  import opened Text
  import ResourceTypes

  datatype PreviewKind = Video | Link

  /** The preview object `{ type, url }`. */
  datatype Preview = Preview(kind: PreviewKind, url: string)

  /** The hosts that make a preview a video. */
  ghost predicate IsVideoHost(url: string) {
    Occurs(url, "youtube.com") || Occurs(url, "youtu.be") || Occurs(url, "vimeo.com")
  }

  /**
   `getLinkPreview(url)`. The `catch` branch that returns null cannot be
   reached: substring tests on a string do not throw.
   */
  function GetLinkPreview(url: string): (r: Option<Preview>)
    ensures r.Some?
    ensures r.value.url == url
    ensures r.value.kind == Video <==> IsVideoHost(url)
    ensures r.value.kind == Link <==> !IsVideoHost(url)
  {
    var isYouTube := Includes(url, "youtube.com") || Includes(url, "youtu.be");
    var isVimeo := Includes(url, "vimeo.com");
    if isYouTube || isVimeo then Some(Preview(Video, url)) else Some(Preview(Link, url))
  }

  /** A YouTube URL is a video for both classifiers. */
  lemma YouTubeAgrees(url: string)
    requires Occurs(url, "youtube.com") || Occurs(url, "youtu.be")
    ensures GetLinkPreview(url).value.kind == Video
    ensures ResourceTypes.DetectResourceType(url) == ResourceTypes.Video
  {
  }

  /**
   A Vimeo URL without the patterns of a video category is previewed as a
   video but is not in the video category.
   */
  lemma VimeoDiverges(url: string)
    requires Occurs(url, "vimeo.com") && !ResourceTypes.IsVideoUrl(url)
    ensures GetLinkPreview(url).value.kind == Video
    ensures ResourceTypes.DetectResourceType(url) != ResourceTypes.Video
  {
  }

  /**
   An Instagram reel URL without a YouTube or Vimeo host is in the video
   category but is previewed as a link.
   */
  lemma ReelDiverges(url: string)
    requires Occurs(url, "instagram.com/reel")
    requires !Occurs(url, "youtube.com") && !Occurs(url, "youtu.be") && !Occurs(url, "vimeo.com")
    ensures GetLinkPreview(url).value.kind == Link
    ensures ResourceTypes.DetectResourceType(url) == ResourceTypes.Video
  {
  }

  /**
   Outside Vimeo and Instagram reels the two classifiers agree on what is
   a video.
   */
  lemma ClassifiersAgreeElsewhere(url: string)
    requires !Occurs(url, "vimeo.com") && !Occurs(url, "instagram.com/reel")
    ensures GetLinkPreview(url).value.kind == Video
            <==> ResourceTypes.DetectResourceType(url) == ResourceTypes.Video
  {
  }

  /**
   The video patterns of the categories do not occur in a Vimeo link with
   a numeric id: it has no 'y' and no 'n'.
   */
  lemma VimeoLinkHasNoCategoryPattern(id: string)
    requires forall c :: c in id ==> IsDigit(c)
    ensures !ResourceTypes.IsVideoUrl("https://vimeo.com/" + id)
  {
    var s := "https://vimeo.com/" + id;
    VimeoLinkLacksYAndN(id);
    NotOccursWithoutChar(s, "youtube.com", 0);
    NotOccursWithoutChar(s, "youtu.be", 0);
    NotOccursWithoutChar(s, "instagram.com/reel", 1);
  }

  lemma VimeoLinkLacksYAndN(id: string)
    requires forall c :: c in id ==> IsDigit(c)
    ensures 'y' !in "https://vimeo.com/" + id && 'n' !in "https://vimeo.com/" + id
  {
    assert 'y' !in "https://vimeo.com/" && 'n' !in "https://vimeo.com/";
    assert 'y' !in id && 'n' !in id;
  }

  /** A Vimeo link with a numeric id ends in a digit or '/', so it has no document extension. */
  lemma VimeoLinkHasNoExtension(id: string)
    requires forall c :: c in id ==> IsDigit(c)
    ensures !ResourceTypes.HasDocumentExtension("https://vimeo.com/" + id)
  {
    var s := "https://vimeo.com/" + id;
    assert IsDigit(s[|s| - 1]) || s[|s| - 1] == '/' by {
      if |id| > 0 {
        assert s[|s| - 1] == id[|id| - 1];
      }
    }
    assert s[|s| - 4..][3] == s[|s| - 1];
    assert s[|s| - 5..][4] == s[|s| - 1];
  }

  /** A Vimeo video link with a numeric id: preview video, category web. */
  lemma VimeoLinkExample(id: string)
    requires forall c :: c in id ==> IsDigit(c)
    ensures GetLinkPreview("https://vimeo.com/" + id).value.kind == Video
    ensures ResourceTypes.DetectResourceType("https://vimeo.com/" + id) == ResourceTypes.Web
  {
    var s := "https://vimeo.com/" + id;
    assert HasAt(s, 8, "vimeo.com") by {
      assert s[8..17] == "vimeo.com";
    }
    VimeoLinkHasNoCategoryPattern(id);
    VimeoLinkHasNoExtension(id);
  }
}
