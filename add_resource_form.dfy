/**
 The add-resource form (src/components/AddResourceForm.tsx) as a state
 machine: the handlers for a dropped file, the tag list and the link
 input, and the submission with its guards, the storage key of an upload,
 the row it inserts and the reset after success. The backend is reduced
 to the outcomes the handler branches on, which are parameters.
 */
module AddResourceForm {
  import opened Options
  import opened Text
  import opened Lists
  import App
  import LinkPreview

  /** A file handed over by the drop zone; only its name matters here. */
  datatype FileInfo = FileInfo(name: string)

  // ---------------------------------------------------------------------
  // Pure parts of the handlers

  /** `name.split('.')[0]`: the title suggested for a dropped file. */
  function TitleFromFileName(name: string): (t: string)
    ensures t <= name && '.' !in t
    ensures |t| < |name| ==> name[|t|] == '.'
  {
    BeforeFirst(name, '.')
  }

  /** A file whose name starts with '.' suggests the empty title. */
  lemma DotFileSuggestsNoTitle(rest: string)
    ensures TitleFromFileName("." + rest) == ""
  {
    BeforeFirstOfJoin("", '.', rest);
    assert "" + ['.'] + rest == "." + rest;
  }

  /** A name without '.' is its own title. */
  lemma NoDotNameIsTitle(name: string)
    requires '.' !in name
    ensures TitleFromFileName(name) == name
  {
  }

  /** `name.split('.').pop()`: the extension, or the whole name when it has no '.'. */
  function Extension(name: string): (e: string)
    ensures '.' !in e
    ensures |e| <= |name| && e == name[|name| - |e|..]
    ensures '.' !in name ==> e == name
    ensures |e| < |name| ==> name[|name| - |e| - 1] == '.'
  {
    AfterLast(name, '.')
  }

  /** `${Date.now()}.${fileExt}`: the storage key of an upload. */
  function UploadKey(now: nat, name: string): (k: string)
    ensures '/' !in name ==> '/' !in k
  {
    DecimalString(now) + "." + Extension(name)
  }

  /**
   The key can be read back: the part before its first '.' is the
   timestamp, and the part after its last '.' is the file's extension.
   */
  lemma UploadKeyRoundTrip(now: nat, name: string)
    ensures BeforeFirst(UploadKey(now, name), '.') == DecimalString(now)
    ensures ParseDecimal(BeforeFirst(UploadKey(now, name), '.')) == now
    ensures AfterLast(UploadKey(now, name), '.') == Extension(name)
  {
    var d, e := DecimalString(now), Extension(name);
    assert '.' !in d by {
      assert !IsDigit('.');
    }
    assert UploadKey(now, name) == d + ['.'] + e;
    BeforeFirstOfJoin(d, '.', e);
    AfterLastOfJoin(d, '.', e);
    DecimalRoundTrip(now);
  }

  /** Uploads at different instants get different keys, whatever the files are called. */
  lemma UploadKeysDiffer(now: nat, later: nat, name: string, other: string)
    requires now != later
    ensures UploadKey(now, name) != UploadKey(later, other)
  {
    UploadKeyRoundTrip(now, name);
    UploadKeyRoundTrip(later, other);
  }

  /** A name without a dot is its own extension: "notes" is stored as "<now>.notes". */
  lemma NoDotNameKey(now: nat, name: string)
    requires '.' !in name
    ensures UploadKey(now, name) == DecimalString(now) + "." + name
  {
  }

  // ---------------------------------------------------------------------
  // Submission

  /** The row inserted into the resources table. */
  datatype NewResource = NewResource(
    title: string,
    tags: seq<string>,
    kind: App.Kind,
    url: string,
    preview: Option<LinkPreview.Preview>,
    userId: string)

  /** What the storage upload reported: an error, or success with or without data. */
  datatype UploadResult = UploadError | Uploaded(hasData: bool)

  /** The backend calls of a submission, in the order made. */
  datatype Call = GetUser | Upload(key: string) | Insert(row: NewResource)

  /** How a submission ended. */
  datatype Outcome = MissingTitle | MissingLink | SignedOut | UploadFailed | InsertFailed | Added(row: NewResource)

  /** The form fields a submission reads. */
  datatype Draft = Draft(title: string, tags: seq<string>, kind: App.Kind, link: string, file: Option<FileInfo>)

  /** How a submission ended, and the backend calls it made, in order. */
  datatype Submission = Submission(outcome: Outcome, calls: seq<Call>)

  /** Neither guard stops the draft: it has a title, and in link mode a link. */
  predicate PassesGuards(d: Draft) {
    d.title != "" && !(d.kind == App.Link && d.link == "")
  }

  /** The draft is in file mode with a file, so the file is uploaded. */
  predicate UploadsFile(d: Draft) {
    d.kind == App.File && d.file.Some?
  }

  /** The upload call of a draft that uploads its file. */
  function UploadCall(d: Draft, now: nat): Call
    requires UploadsFile(d)
  {
    Upload(UploadKey(now, d.file.value.name))
  }

  /** The upload calls of a draft: its file's upload, if it has one. */
  function Uploads(d: Draft, now: nat): seq<Call> {
    if UploadsFile(d) then [UploadCall(d, now)] else []
  }

  /**
   The url a submission stores: the public url of the upload when it
   returned data, the link in link mode, and "" otherwise.
   */
  function StoredUrl(d: Draft, now: nat, upload: UploadResult, publicUrlOf: string -> string): string {
    if UploadsFile(d) then (if upload.Uploaded? && upload.hasData then publicUrlOf(UploadKey(now, d.file.value.name)) else "")
    else if d.kind == App.Link then d.link
    else ""
  }

  /** The preview a submission stores: the link's preview in link mode, none otherwise. */
  function StoredPreview(d: Draft): Option<LinkPreview.Preview> {
    if d.kind == App.Link then LinkPreview.GetLinkPreview(d.link) else None
  }

  /**
   What `handleSubmit` does to a draft, given the signed-in user, the
   clock, the storage's answer to the upload, its public url for a key,
   and whether the insert succeeds. At most three backend calls are made,
   and none when a guard stops the draft.
   */
  function Submit(d: Draft, user: Option<string>, now: nat, upload: UploadResult,
                  publicUrlOf: string -> string, insertOk: bool): (s: Submission)
    ensures |s.calls| <= 3
    ensures s.calls == [] <==> !PassesGuards(d)
  {
    if !PassesGuards(d) then Submission(if d.title == "" then MissingTitle else MissingLink, [])
    else if user.None? then Submission(SignedOut, [GetUser])
    else if UploadsFile(d) && upload.UploadError? then Submission(UploadFailed, [GetUser, UploadCall(d, now)])
    else
      var row := NewResource(d.title, d.tags, d.kind, StoredUrl(d, now, upload, publicUrlOf), StoredPreview(d), user.value);
      Submission(if insertOk then Added(row) else InsertFailed, [GetUser] + Uploads(d, now) + [Insert(row)])
  }

  /** The guards: a missing title, then a missing link in link mode, stop the submission. */
  lemma SubmitGuards(d: Draft, user: Option<string>, now: nat, upload: UploadResult,
                     publicUrlOf: string -> string, insertOk: bool)
    ensures Submit(d, user, now, upload, publicUrlOf, insertOk).outcome.MissingTitle? <==> d.title == ""
    ensures Submit(d, user, now, upload, publicUrlOf, insertOk).outcome.MissingLink? <==>
              d.title != "" && d.kind == App.Link && d.link == ""
  {
  }

  /** Past the guards the user is asked for first; without one the submission stops there. */
  lemma SubmitAsksForUserFirst(d: Draft, user: Option<string>, now: nat, upload: UploadResult,
                               publicUrlOf: string -> string, insertOk: bool)
    requires PassesGuards(d)
    ensures var s := Submit(d, user, now, upload, publicUrlOf, insertOk);
            && s.calls[0] == GetUser
            && (s.outcome.SignedOut? <==> user.None?)
            && (user.None? ==> s.calls == [GetUser])
  {
  }

  /**
   The upload fails the submission exactly when a signed-in user submits a
   file and the storage reports an error; the calls end with that upload.
   */
  lemma SubmitUploadFailure(d: Draft, user: Option<string>, now: nat, upload: UploadResult,
                            publicUrlOf: string -> string, insertOk: bool)
    ensures var s := Submit(d, user, now, upload, publicUrlOf, insertOk);
            && (s.outcome.UploadFailed? <==>
                  PassesGuards(d) && user.Some? && UploadsFile(d) && upload.UploadError?)
            && (s.outcome.UploadFailed? ==> s.calls == [GetUser, Upload(UploadKey(now, d.file.value.name))])
  {
  }

  /** Only the draft's file is uploaded, as the second call, under `<now>.<ext>`. */
  lemma SubmitUploadsOnlyTheFile(d: Draft, user: Option<string>, now: nat, upload: UploadResult,
                                 publicUrlOf: string -> string, insertOk: bool)
    ensures var s := Submit(d, user, now, upload, publicUrlOf, insertOk);
            forall i :: 0 <= i < |s.calls| && s.calls[i].Upload? ==>
              i == 1 && UploadsFile(d) && s.calls[i].key == UploadKey(now, d.file.value.name)
  {
  }

  /**
   Past the guards, with a user and no failed upload, exactly one row is
   inserted, as the last call after the user and the upload; the
   submission succeeds exactly when the insert does.
   */
  lemma SubmitInsertsOnce(d: Draft, user: Option<string>, now: nat, upload: UploadResult,
                          publicUrlOf: string -> string, insertOk: bool)
    requires PassesGuards(d) && user.Some? && !(UploadsFile(d) && upload.UploadError?)
    ensures var s := Submit(d, user, now, upload, publicUrlOf, insertOk);
            && s.calls[|s.calls| - 1].Insert?
            && s.calls == (if UploadsFile(d) then [GetUser, Upload(UploadKey(now, d.file.value.name))] else [GetUser])
                          + [s.calls[|s.calls| - 1]]
            && (s.outcome.Added? <==> insertOk)
            && (s.outcome.Added? ==> s.outcome.row == s.calls[|s.calls| - 1].row)
            && (!insertOk ==> s.outcome.InsertFailed?)
  {
    var row := NewResource(d.title, d.tags, d.kind, StoredUrl(d, now, upload, publicUrlOf), StoredPreview(d), user.value);
    var before := if UploadsFile(d) then [GetUser, Upload(UploadKey(now, d.file.value.name))] else [GetUser];
    assert [GetUser] + Uploads(d, now) == before;
    assert Submit(d, user, now, upload, publicUrlOf, insertOk).calls == before + [Insert(row)];
  }

  /**
   The inserted row: the draft's title, tags and mode and the user's id;
   in link mode the link and its preview; in file mode no preview, and
   the public url of the upload when it returned data, "" otherwise.
   */
  lemma SubmitInsertedRow(d: Draft, user: Option<string>, now: nat, upload: UploadResult,
                          publicUrlOf: string -> string, insertOk: bool)
    requires PassesGuards(d) && user.Some? && !(UploadsFile(d) && upload.UploadError?)
    ensures var s := Submit(d, user, now, upload, publicUrlOf, insertOk);
            var row := s.calls[|s.calls| - 1].row;
            && row.userId == user.value && row.title == d.title && row.tags == d.tags && row.kind == d.kind
            && (d.kind == App.Link ==> row.url == d.link && row.preview == LinkPreview.GetLinkPreview(d.link))
            && (d.kind == App.File ==> row.preview == None)
            && (d.kind == App.File && d.file.None? ==> row.url == "")
            && (UploadsFile(d) ==>
                  row.url == if upload.hasData then publicUrlOf(UploadKey(now, d.file.value.name)) else "")
  {
  }

  /** The state of the form component. */
  class Form {
    var title: string
    var tags: seq<string>
    var currentTag: string
    var file: Option<FileInfo>
    var link: string
    var isSubmitting: bool
    var resourceType: App.Kind

    /**
     Between events: no tag twice, never both a file and a link, and no
     submission in flight.
     */
    predicate Valid()
      reads this
    {
      NoDup(tags) && (file.None? || link == "") && !isSubmitting
    }

    /** An empty form in file mode. */
    constructor ()
      ensures Valid()
      ensures title == "" && tags == [] && currentTag == "" && file == None && link == ""
      ensures resourceType == App.File
    {
      title := "";
      tags := [];
      currentTag := "";
      file := None;
      link := "";
      isSubmitting := false;
      resourceType := App.File;
    }

    /**
     `onDrop`: the first accepted file is selected, the form switches to
     file mode and the link is cleared; the title is suggested from the
     file name only when none was typed. An empty list changes nothing.
     */
    method OnDrop(accepted: seq<FileInfo>)
      requires Valid()
      modifies this
      ensures Valid()
      ensures |accepted| == 0 ==> file == old(file) && link == old(link) && title == old(title)
                                  && resourceType == old(resourceType)
      ensures |accepted| > 0 ==> file == Some(accepted[0]) && link == "" && resourceType == App.File
      ensures |accepted| > 0 && old(title) == "" ==> title == TitleFromFileName(accepted[0].name)
      ensures |accepted| > 0 && old(title) != "" ==> title == old(title)
      ensures tags == old(tags) && currentTag == old(currentTag)
    {
      if |accepted| > 0 {
        file := Some(accepted[0]);
        if title == "" {
          title := TitleFromFileName(accepted[0].name);
        }
        resourceType := App.File;
        link := "";
      }
    }

    /**
     `handleAddTag`: a non-empty tag not yet in the list is appended and
     the input cleared; otherwise nothing changes.
     */
    method HandleAddTag()
      requires Valid()
      modifies this
      ensures Valid()
      ensures old(currentTag) != "" && old(currentTag) !in old(tags) ==>
                tags == old(tags) + [old(currentTag)] && currentTag == ""
      ensures old(currentTag) == "" || old(currentTag) in old(tags) ==>
                tags == old(tags) && currentTag == old(currentTag)
      ensures title == old(title) && file == old(file) && link == old(link) && resourceType == old(resourceType)
    {
      if currentTag != "" && currentTag !in tags {
        NoDupAppend(tags, [currentTag]);
        tags := tags + [currentTag];
        currentTag := "";
      }
    }

    /** `handleRemoveTag`: the tag leaves the list and the others keep their order. */
    method HandleRemoveTag(tagToRemove: string)
      requires Valid()
      modifies this
      ensures Valid()
      ensures tags == FilterOut(old(tags), [tagToRemove])
      ensures forall t :: t in tags <==> t in old(tags) && t != tagToRemove
      ensures IsSubsequence(tags, old(tags))
      ensures title == old(title) && currentTag == old(currentTag) && file == old(file)
      ensures link == old(link) && resourceType == old(resourceType)
    {
      FilterOutNoDup(tags, [tagToRemove]);
      tags := FilterOut(tags, [tagToRemove]);
    }

    /** `handleLinkChange`: the link is stored, the form switches to link mode and the file is dropped. */
    method HandleLinkChange(value: string)
      requires Valid()
      modifies this
      ensures Valid()
      ensures link == value && resourceType == App.Link && file == None
      ensures title == old(title) && tags == old(tags) && currentTag == old(currentTag)
    {
      link := value;
      resourceType := App.Link;
      file := None;
    }

    /** Typing in the title input. */
    method SetTitle(value: string)
      requires Valid()
      modifies this
      ensures Valid()
      ensures title == value
      ensures tags == old(tags) && currentTag == old(currentTag) && file == old(file)
      ensures link == old(link) && resourceType == old(resourceType)
    {
      title := value;
    }

    /** Typing in the tag input. */
    method SetCurrentTag(value: string)
      requires Valid()
      modifies this
      ensures Valid()
      ensures currentTag == value
      ensures title == old(title) && tags == old(tags) && file == old(file)
      ensures link == old(link) && resourceType == old(resourceType)
    {
      currentTag := value;
    }

    /** The file / link mode buttons: only the mode changes, the file and the link stay. */
    method SetResourceType(kind: App.Kind)
      requires Valid()
      modifies this
      ensures Valid()
      ensures resourceType == kind
      ensures title == old(title) && tags == old(tags) && currentTag == old(currentTag)
      ensures file == old(file) && link == old(link)
    {
      resourceType := kind;
    }

    /** The reset after a successful submission: title, tags, file and link are cleared. */
    method ClearInputs()
      modifies this
      ensures title == "" && tags == [] && file == None && link == ""
      ensures currentTag == old(currentTag) && resourceType == old(resourceType)
      ensures isSubmitting == old(isSubmitting)
    {
      title := "";
      tags := [];
      file := None;
      link := "";
    }

    /** The fields a submission reads. */
    function CurrentDraft(): Draft
      reads this
    {
      Draft(title, tags, resourceType, link, file)
    }

    /**
     The step of `handleSubmit` that yields the url and preview to store:
     in file mode with a file, the upload under its key and the public url
     when the upload returned data; in link mode, the link and its preview.
     `failed` is whether the upload reported an error.
     */
    method UploadOrLink(now: nat, upload: UploadResult, publicUrlOf: string -> string)
      returns (failed: bool, url: string, preview: Option<LinkPreview.Preview>, uploads: seq<Call>)
      ensures uploads == Uploads(CurrentDraft(), now)
      ensures failed <==> UploadsFile(CurrentDraft()) && upload.UploadError?
      ensures !failed ==> url == StoredUrl(CurrentDraft(), now, upload, publicUrlOf) && preview == StoredPreview(CurrentDraft())
    {
      failed, url, preview, uploads := false, "", None, [];
      if resourceType == App.File && file.Some? {
        var key := UploadKey(now, file.value.name);
        uploads := [Upload(key)];
        if upload.UploadError? {
          return true, url, preview, uploads;
        }
        if upload.hasData {
          url := publicUrlOf(key);
        }
      } else if resourceType == App.Link {
        url := link;
        preview := LinkPreview.GetLinkPreview(link);
      }
    }

    /**
     The part of `handleSubmit` after the user is known: the upload or the
     link, then the insert of the row, and the reset after success. `calls`
     are the backend calls after the request for the user.
     */
    method SaveResource(userId: string, now: nat, upload: UploadResult,
                        publicUrlOf: string -> string, insertOk: bool)
      returns (outcome: Outcome, calls: seq<Call>)
      requires NoDup(tags) && (file.None? || link == "") && PassesGuards(CurrentDraft())
      modifies this
      ensures NoDup(tags) && (file.None? || link == "")
      ensures Submission(outcome, [GetUser] + calls)
              == Submit(old(CurrentDraft()), Some(userId), now, upload, publicUrlOf, insertOk)
      ensures CurrentDraft() == if outcome.Added? then Draft("", [], old(resourceType), "", None) else old(CurrentDraft())
      ensures currentTag == old(currentTag) && isSubmitting == old(isSubmitting)
    {
      ghost var d := CurrentDraft();
      var failed, url, preview, uploads := UploadOrLink(now, upload, publicUrlOf);
      if failed {
        outcome, calls := UploadFailed, uploads;
      } else {
        var row := NewResource(title, tags, resourceType, url, preview, userId);
        assert row == NewResource(d.title, d.tags, d.kind, StoredUrl(d, now, upload, publicUrlOf), StoredPreview(d), userId);
        calls := uploads + [Insert(row)];
        assert [GetUser] + calls == [GetUser] + Uploads(d, now) + [Insert(row)];
        if insertOk {
          ClearInputs();
          outcome := Added(row);
        } else {
          outcome := InsertFailed;
        }
      }
    }

    /**
     `handleSubmit`: the guards on the title and, in link mode, the link;
     then, marked as submitting, the request for the user, the upload or
     the link, and the insert. The outcome and the backend calls are those
     `Submit` gives for the draft the form held.
     */
    method HandleSubmit(user: Option<string>, now: nat, upload: UploadResult,
                        publicUrlOf: string -> string, insertOk: bool)
      returns (outcome: Outcome, calls: seq<Call>)
      requires Valid()
      modifies this
      ensures Valid()
      ensures Submission(outcome, calls) == Submit(old(CurrentDraft()), user, now, upload, publicUrlOf, insertOk)
      // After success title, tags, file and link are reset; the mode and the tag input stay.
      ensures CurrentDraft() == if outcome.Added? then Draft("", [], old(resourceType), "", None) else old(CurrentDraft())
      ensures currentTag == old(currentTag)
    {
      if title == "" {
        return MissingTitle, [];
      }
      if resourceType == App.Link && link == "" {
        return MissingLink, [];
      }
      isSubmitting := true;
      if user.None? {
        isSubmitting := false;
        return SignedOut, [GetUser];
      }
      var saved;
      outcome, saved := SaveResource(user.value, now, upload, publicUrlOf, insertOk);
      calls := [GetUser] + saved;
      isSubmitting := false;
    }
  }
}
