/**
 The helpers of a resource card (src/components/ResourceCard.tsx): the
 test that embeds a YouTube player, the storage key of an uploaded file,
 and the order of the steps when a resource is deleted. The backend is
 reduced to the outcomes the handler branches on.
 */
module ResourceCard {
  import opened Options
  import opened Text
  import App
  import ResourceTypes
  import AddResourceForm

  /** `url?.includes('youtube.com') || url?.includes('youtu.be')`; an absent url is not YouTube. */
  function IsYouTube(url: Option<string>): (b: bool)
    ensures b <==> url.Some? && (Occurs(url.value, "youtube.com") || Occurs(url.value, "youtu.be"))
  {
    url.Some? && (Includes(url.value, "youtube.com") || Includes(url.value, "youtu.be"))
  }

  /** A card that embeds a player shows a resource of the video category. */
  lemma YouTubeCardIsVideo(url: Option<string>)
    requires IsYouTube(url)
    ensures ResourceTypes.DetectResourceType(url.value) == ResourceTypes.Video
  {
  }

  /** An Instagram reel is in the video category, but its card embeds no player. */
  lemma ReelCardHasNoPlayer(url: string)
    requires Occurs(url, "instagram.com/reel")
    requires !Occurs(url, "youtube.com") && !Occurs(url, "youtu.be")
    ensures !IsYouTube(Some(url))
    ensures ResourceTypes.DetectResourceType(url) == ResourceTypes.Video
  {
  }

  /** `url.split('/').pop()`: the text after the last '/', or the whole url when it has none. */
  function StorageKey(url: string): (k: string)
    ensures '/' !in k && |k| <= |url| && k == url[|url| - |k|..]
    ensures |k| < |url| ==> url[|url| - |k| - 1] == '/'
    ensures '/' !in url ==> k == url
  {
    AfterLast(url, '/')
  }

  /** A url that ends in '/' gives the empty key. */
  lemma TrailingSlashGivesNoKey(url: string)
    requires |url| > 0 && url[|url| - 1] == '/'
    ensures StorageKey(url) == ""
  {
  }

  /**
   When the public url of an upload is a base followed by '/' and the
   upload's key, the card recovers that key, so deleting removes the
   object the form uploaded.
   */
  lemma StorageKeyOfUpload(base: string, now: nat, name: string)
    requires '/' !in name
    ensures StorageKey(base + "/" + AddResourceForm.UploadKey(now, name)) == AddResourceForm.UploadKey(now, name)
    ensures StorageKey(base + "/" + AddResourceForm.UploadKey(now, name)) != ""
  {
    var key := AddResourceForm.UploadKey(now, name);
    assert base + "/" + key == base + ['/'] + key;
    AfterLastOfJoin(base, '/', key);
  }

  /** The backend calls of a delete, in the order made. */
  datatype Call = DeleteRow(id: string) | RemoveObject(key: string)

  /**
   Storage removal is attempted for a file with a non-empty url and a
   non-empty key. The test for an empty url adds nothing: an empty url
   has an empty key.
   */
  function RemovesObject(kind: App.Kind, url: Option<string>): (b: bool)
    ensures b <==> kind == App.File && url.Some? && StorageKey(url.value) != ""
  {
    kind == App.File && url.Some? && url.value != "" && StorageKey(url.value) != ""
  }

  /**
   `handleDelete`. `rowOk` and `storageOk` are whether the row delete and
   the storage removal succeed. Returns the backend calls made and whether
   `onDelete` was called.
   */
  method HandleDelete(id: string, kind: App.Kind, url: Option<string>, rowOk: bool, storageOk: bool)
    returns (calls: seq<Call>, notified: bool)
    ensures |calls| > 0 && calls[0] == DeleteRow(id)
    ensures !rowOk ==> calls == [DeleteRow(id)] && !notified
    ensures rowOk && RemovesObject(kind, url) ==>
              calls == [DeleteRow(id), RemoveObject(StorageKey(url.value))] && notified == storageOk
    ensures rowOk && !RemovesObject(kind, url) ==> calls == [DeleteRow(id)] && notified
    ensures notified ==> rowOk && (RemovesObject(kind, url) ==> storageOk)
  {
    calls := [DeleteRow(id)];
    if !rowOk {
      return calls, false;
    }
    if kind == App.File && url.Some? && url.value != "" {
      var fileName := StorageKey(url.value);
      if fileName != "" {
        calls := calls + [RemoveObject(fileName)];
        if !storageOk {
          return calls, false;
        }
      }
    }
    notified := true;
  }
}
