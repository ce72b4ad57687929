/**
 The application's resource list (src/App.tsx): the filter that decides
 which resources are shown, the tag list gathered from the loaded
 resources, the selected-tag toggle, and the component state that the
 fetch and the handlers replace.
 */
module App {
  import opened Options
  import opened Text
  import opened Lists
  import ResourceTypes
  import LinkPreview

  /** How a resource was added: an uploaded file or a link. */
  datatype Kind = File | Link

  /** A row of the resources table as the application reads it. */
  datatype Resource = Resource(
    id: string,
    title: string,
    tags: seq<string>,
    kind: Kind,
    url: Option<string>,
    preview: Option<LinkPreview.Preview>)

  /** The search box, the selected tag chips and the selected type chip. */
  datatype Criteria = Criteria(searchTerm: string, selectedTags: seq<string>, selectedType: Option<ResourceTypes.ResourceType>)

  /** The criteria of a fresh page: nothing typed, nothing selected. */
  const NoCriteria := Criteria("", [], None)

  // ---------------------------------------------------------------------
  // filteredResources

  /**
   The text criterion: the lower-cased search term is a substring of the
   lower-cased title or of some lower-cased tag.
   */
  function MatchesSearch(r: Resource, term: string): (b: bool)
    ensures b <==> Occurs(ToLower(r.title), ToLower(term))
                   || exists i :: 0 <= i < |r.tags| && Occurs(ToLower(r.tags[i]), ToLower(term))
  {
    Includes(ToLower(r.title), ToLower(term))
    || exists i :: 0 <= i < |r.tags| && Includes(ToLower(r.tags[i]), ToLower(term))
  }

  /**
   The tag criterion: no tag selected, or every selected tag among the
   resource's tags. The test for an empty selection adds nothing: the
   selected tags form a subset of the resource's tags.
   */
  function MatchesTags(r: Resource, selected: seq<string>): (b: bool)
    ensures b <==> (set t | t in selected) <= (set t | t in r.tags)
  {
    var chosen, carried := set t | t in selected, set t | t in r.tags;
    assert forall t :: t in chosen <==> t in selected;
    assert forall t :: t in carried <==> t in r.tags;
    |selected| == 0 || forall t :: t in selected ==> t in r.tags
  }

  /**
   The type criterion: no type selected, or a present, non-empty url whose
   derived category is the selected one.
   */
  function MatchesType(r: Resource, selected: Option<ResourceTypes.ResourceType>): (b: bool)
    ensures selected.None? ==> b
    ensures selected.Some? && (r.url.None? || r.url.value == "") ==> !b
    ensures selected.Some? && r.url.Some? && r.url.value != "" ==>
              (b <==> ResourceTypes.DetectResourceType(r.url.value) == selected.value)
  {
    selected.None? || (r.url.Some? && r.url.value != "" && ResourceTypes.DetectResourceType(r.url.value) == selected.value)
  }

  /** The three criteria together; the criteria of a fresh page keep every resource. */
  function Keep(r: Resource, c: Criteria): (b: bool)
    ensures b <==> MatchesSearch(r, c.searchTerm) && MatchesTags(r, c.selectedTags) && MatchesType(r, c.selectedType)
    ensures c == NoCriteria ==> b
  {
    IncludesEmpty(ToLower(r.title));
    MatchesSearch(r, c.searchTerm) && MatchesTags(r, c.selectedTags) && MatchesType(r, c.selectedType)
  }

  /**
   `resources.filter(…)`: the kept resources, each as often as it occurs,
   in their original order.
   */
  function Filter(rs: seq<Resource>, c: Criteria): (r: seq<Resource>)
    ensures IsSubsequence(r, rs)
    ensures forall x :: x in r <==> x in rs && Keep(x, c)
    ensures forall x :: multiset(r)[x] == if Keep(x, c) then multiset(rs)[x] else 0
  {
    if rs == [] then []
    else
      assert rs == [rs[0]] + rs[1..];
      if Keep(rs[0], c) then [rs[0]] + Filter(rs[1..], c) else Filter(rs[1..], c)
  }

  /** A list whose every element is kept passes the filter unchanged. */
  lemma {:induction false} FilterKeepsAllKept(rs: seq<Resource>, c: Criteria)
    requires forall x :: x in rs ==> Keep(x, c)
    ensures Filter(rs, c) == rs
  {
    if rs != [] {
      assert rs[0] in rs;
      assert forall x :: x in rs[1..] ==> x in rs;
      FilterKeepsAllKept(rs[1..], c);
    }
  }

  /** Filtering twice with the same criteria is filtering once. */
  lemma FilterIdempotent(rs: seq<Resource>, c: Criteria)
    ensures Filter(Filter(rs, c), c) == Filter(rs, c)
  {
    FilterKeepsAllKept(Filter(rs, c), c);
  }

  /** Every resource matches the criteria of a fresh page, because every string includes "". */
  lemma NoCriteriaKeepsResource(r: Resource)
    ensures Keep(r, NoCriteria)
  {
    IncludesEmpty(ToLower(r.title));
  }

  /** With nothing typed and nothing selected, every resource is shown. */
  lemma NoCriteriaKeepsAll(rs: seq<Resource>)
    ensures Filter(rs, NoCriteria) == rs
  {
    forall x | x in rs ensures Keep(x, NoCriteria) {
      NoCriteriaKeepsResource(x);
    }
    FilterKeepsAllKept(rs, NoCriteria);
  }

  /** The search ignores the case of the typed term (for ASCII letters). */
  lemma SearchIgnoresTermCase(r: Resource, term: string)
    ensures MatchesSearch(r, term) == MatchesSearch(r, ToLower(term))
  {
    ToLowerIdempotent(term);
  }

  /** The search ignores the case of the title (for ASCII letters). */
  lemma SearchIgnoresTitleCase(r: Resource, term: string)
    ensures MatchesSearch(r, term) == MatchesSearch(r.(title := ToLower(r.title)), term)
  {
    ToLowerIdempotent(r.title);
  }

  /** The tag criterion is conjunctive: selecting two groups of tags asks for both. */
  lemma MatchesTagsConjunctive(r: Resource, a: seq<string>, b: seq<string>)
    ensures MatchesTags(r, a + b) <==> MatchesTags(r, a) && MatchesTags(r, b)
  {
    assert forall t :: t in a + b <==> t in a || t in b;
  }

  /** Tags are compared exactly: "ML" selected does not find a resource tagged "ml" only. */
  lemma TagComparisonIsExact(r: Resource)
    requires r.tags == ["ml"]
    ensures !MatchesTags(r, ["ML"])
  {
    assert "ML" != "ml" by {
      assert "ML"[0] != "ml"[0];
    }
    assert "ML" in ["ML"];
  }

  /** Selecting more tags can only hide resources, never show new ones. */
  lemma {:induction false} MoreTagsShowLess(rs: seq<Resource>, c: Criteria, more: seq<string>)
    requires forall t :: t in c.selectedTags ==> t in more
    ensures forall x :: x in Filter(rs, c.(selectedTags := more)) ==> x in Filter(rs, c)
  {
    var d := c.(selectedTags := more);
    forall x | x in Filter(rs, d) ensures x in Filter(rs, c) {
      assert Keep(x, d);
      assert MatchesTags(x, c.selectedTags) by {
        if |c.selectedTags| > 0 {
          assert c.selectedTags[0] in more;
        }
      }
    }
  }

  /** With a type selected, a resource without a url, or with an empty one, is hidden. */
  lemma NoUrlHiddenByType(r: Resource, c: Criteria)
    requires c.selectedType.Some?
    requires r.url.None? || r.url == Some("")
    ensures r !in Filter([r], c)
  {
  }

  /** With the video type selected, exactly the resources whose url names a video are kept by it. */
  lemma VideoTypeKeepsVideoUrls(r: Resource)
    requires r.url.Some? && r.url.value != ""
    ensures MatchesType(r, Some(ResourceTypes.Video)) <==> ResourceTypes.IsVideoUrl(r.url.value)
  {
  }

  /** A document and a video that share the tag "ml". */
  const PaperA := Resource("1", "Paper A", ["ml"], File, Some("x.pdf"), None)
  const Talk := Resource("2", "Talk", ["ml", "video"], Link, Some("https://youtu.be/1"), None)

  /** Filtering two resources, each on its own. */
  lemma FilterPair(a: Resource, b: Resource, c: Criteria)
    ensures Filter([a, b], c) == (if Keep(a, c) then [a] else []) + (if Keep(b, c) then [b] else [])
  {
    assert Filter([b], c) == if Keep(b, c) then [b] else [] by {
      assert [b][1..] == [];
    }
    assert [a, b][1..] == [b];
  }

  /** With nothing typed and no type selected, a resource is kept exactly when it has every selected tag. */
  lemma TagsAloneDecide(r: Resource, selected: seq<string>)
    ensures Keep(r, Criteria("", selected, None)) <==> MatchesTags(r, selected)
  {
    IncludesEmpty(ToLower(r.title));
  }

  /** Both resources carry the selected tag "ml". */
  lemma TagFilterExample()
    ensures Filter([PaperA, Talk], Criteria("", ["ml"], None)) == [PaperA, Talk]
  {
    TagsAloneDecide(PaperA, ["ml"]);
    TagsAloneDecide(Talk, ["ml"]);
    FilterPair(PaperA, Talk, Criteria("", ["ml"], None));
  }

  /** The paper's url "x.pdf" is a document, not a video. */
  lemma PaperIsNoVideo()
    ensures !MatchesType(PaperA, Some(ResourceTypes.Video))
  {
    ResourceTypes.NotVideoWithoutYAndI("x.pdf");
  }

  /** The talk's url is a YouTube short link. */
  lemma TalkIsVideo()
    ensures MatchesType(Talk, Some(ResourceTypes.Video))
  {
    HasAtByChars("https://youtu.be/1", 8, "youtu.be");
  }

  /** Only the YouTube link is a video. */
  lemma TypeFilterExample()
    ensures Filter([PaperA, Talk], Criteria("", [], Some(ResourceTypes.Video))) == [Talk]
  {
    IncludesEmpty(ToLower(Talk.title));
    PaperIsNoVideo();
    TalkIsVideo();
    FilterPair(PaperA, Talk, Criteria("", [], Some(ResourceTypes.Video)));
  }

  /**
   A search misses a resource when the term's first letter occurs, in
   neither case, in the title or in any tag.
   */
  lemma SearchMissesWithoutFirstLetter(r: Resource, term: string, lo: char, up: char)
    requires 'a' <= lo <= 'z' && up as int == lo as int - 'a' as int + 'A' as int
    requires |term| > 0 && (term[0] == lo || term[0] == up)
    requires lo !in r.title && up !in r.title
    requires forall i :: 0 <= i < |r.tags| ==> lo !in r.tags[i] && up !in r.tags[i]
    ensures !MatchesSearch(r, term)
  {
    var t := ToLower(term);
    assert t[0] == lo;
    LowerAvoids(r.title, lo, up);
    NotOccursWithoutChar(ToLower(r.title), t, 0);
    forall i | 0 <= i < |r.tags| ensures !Occurs(ToLower(r.tags[i]), t) {
      LowerAvoids(r.tags[i], lo, up);
      NotOccursWithoutChar(ToLower(r.tags[i]), t, 0);
    }
  }

  /** The paper's title and tag do not contain "talk". */
  lemma PaperDoesNotMatchTalk()
    ensures !MatchesSearch(PaperA, "talk")
  {
    SearchMissesWithoutFirstLetter(PaperA, "talk", 't', 'T');
  }

  /** The talk's title "Talk" contains "talk" once lower-cased. */
  lemma TalkMatchesTalk()
    ensures MatchesSearch(Talk, "talk")
  {
    var title, term := ToLower(Talk.title), ToLower("talk");
    assert title == term by {
      assert forall k :: 0 <= k < 4 ==> title[k] == term[k];
    }
    assert HasAt(title, 0, term);
  }

  /** The search "talk" matches the title "Talk" and nothing of the paper. */
  lemma SearchFilterExample()
    ensures Filter([PaperA, Talk], Criteria("talk", [], None)) == [Talk]
  {
    PaperDoesNotMatchTalk();
    TalkMatchesTalk();
    FilterPair(PaperA, Talk, Criteria("talk", [], None));
  }

  // ---------------------------------------------------------------------
  // allTags

  /**
   The tags of all resources, in first-seen order: the fold that appends
   to the tags gathered so far each tag of the next resource not already
   among them.
   */
  function AllTags(rs: seq<Resource>): (r: seq<string>)
    ensures forall t :: t in r <==> exists i :: 0 <= i < |rs| && t in rs[i].tags
  {
    if rs == [] then []
    else
      var acc := AllTags(rs[..|rs| - 1]);
      var r := acc + FilterOut(rs[|rs| - 1].tags, acc);
      assert forall i :: 0 <= i < |rs| - 1 ==> rs[..|rs| - 1][i] == rs[i];
      r
  }

  /** Loading more resources only appends tags: the earlier ones keep their place. */
  lemma {:induction false} AllTagsPrefix(rs: seq<Resource>, k: nat)
    requires k <= |rs|
    ensures AllTags(rs[..k]) <= AllTags(rs)
    decreases |rs|
  {
    if k < |rs| {
      AllTagsPrefix(rs[..|rs| - 1], k);
      assert rs[..|rs| - 1][..k] == rs[..k];
    } else {
      assert rs[..k] == rs;
    }
  }

  /** The tag list has no duplicates when no resource lists a tag twice. */
  lemma {:induction false} AllTagsNoDup(rs: seq<Resource>)
    requires forall i :: 0 <= i < |rs| ==> NoDup(rs[i].tags)
    ensures NoDup(AllTags(rs))
    decreases |rs|
  {
    if rs != [] {
      var front := rs[..|rs| - 1];
      assert forall i :: 0 <= i < |front| ==> front[i] == rs[i];
      AllTagsNoDup(front);
      var acc := AllTags(front);
      FilterOutNoDup(rs[|rs| - 1].tags, acc);
      NoDupAppend(acc, FilterOut(rs[|rs| - 1].tags, acc));
    }
  }

  /**
   Only tags gathered from earlier resources are skipped: a resource that
   lists a new tag twice contributes it twice.
   */
  lemma RepeatedTagInOneResource()
    ensures AllTags([Resource("1", "notes", ["a", "a"], Link, None, None)]) == ["a", "a"]
  {
    var rs := [Resource("1", "notes", ["a", "a"], Link, None, None)];
    assert rs[..0] == [];
  }

  // ---------------------------------------------------------------------
  // The selected-tag toggle

  /** Clicking a tag chip: a selected tag is removed, any other tag is appended at the end. */
  function Toggle(selected: seq<string>, tag: string): (r: seq<string>)
    ensures forall x :: x in r <==> if x == tag then tag !in selected else x in selected
    ensures tag !in selected ==> r == selected + [tag]
    ensures tag in selected ==> IsSubsequence(r, selected)
    ensures NoDup(selected) ==> NoDup(r)
  {
    if tag in selected then
      var r := FilterOut(selected, [tag]);
      assert NoDup(selected) ==> NoDup(r) by {
        if NoDup(selected) {
          FilterOutNoDup(selected, [tag]);
        }
      }
      r
    else
      var r := selected + [tag];
      assert NoDup(selected) ==> NoDup(r) by {
        if NoDup(selected) {
          NoDupAppend(selected, [tag]);
        }
      }
      r
  }

  /** Clicking an unselected tag twice restores the selection. */
  lemma ToggleTwice(selected: seq<string>, tag: string)
    requires tag !in selected
    ensures Toggle(Toggle(selected, tag), tag) == selected
  {
    var once := selected + [tag];
    assert tag in once;
    assert forall x :: x in selected ==> x !in [tag];
    assert FilterOut(selected + [tag], [tag]) == FilterOut(selected, [tag]) + FilterOut([tag], [tag]) by {
      FilterOutAppend(selected, [tag], [tag]);
    }
  }

  // ---------------------------------------------------------------------
  // Component state

  /** What the resource query gave: an error, or rows (possibly null). */
  datatype FetchResult = FetchError | FetchData(data: Option<seq<Resource>>)

  /** The state of the App component. */
  class AppState {
    var resources: seq<Resource>
    var searchTerm: string
    var selectedTags: seq<string>
    var selectedType: Option<ResourceTypes.ResourceType>
    var allTags: seq<string>

    /** The toggle keeps the selection free of duplicates. */
    predicate Valid()
      reads this
    {
      NoDup(selectedTags)
    }

    /** The initial state: nothing loaded, typed or selected. */
    constructor ()
      ensures Valid()
      ensures resources == [] && searchTerm == "" && selectedTags == [] && selectedType == None && allTags == []
    {
      resources := [];
      searchTerm := "";
      selectedTags := [];
      selectedType := None;
      allTags := [];
    }

    /** The current criteria. */
    function CurrentCriteria(): Criteria
      reads this
    {
      Criteria(searchTerm, selectedTags, selectedType)
    }

    /** The resources on screen. */
    function Visible(): (r: seq<Resource>)
      reads this
      ensures forall x :: x in r <==> x in resources && Keep(x, CurrentCriteria())
    {
      Filter(resources, CurrentCriteria())
    }

    /**
     `fetchResources`: on rows, the resources become the rows (none when
     null) and the tag list is gathered from them; on an error nothing
     changes.
     */
    method FetchResources(result: FetchResult)
      requires Valid()
      modifies this
      ensures Valid()
      ensures result.FetchError? ==> resources == old(resources) && allTags == old(allTags)
      ensures result.FetchData? && result.data.Some? ==> resources == result.data.value
      ensures result.FetchData? && result.data.None? ==> resources == []
      ensures result.FetchData? ==> allTags == AllTags(resources)
      ensures searchTerm == old(searchTerm) && selectedTags == old(selectedTags) && selectedType == old(selectedType)
    {
      match result
      case FetchError =>
      case FetchData(data) =>
        var rows := if data.Some? then data.value else [];
        resources := rows;
        allTags := AllTags(rows);
    }

    /** Without a signed-in user the resources are cleared; the tag list stays as it was. */
    method ClearResources()
      requires Valid()
      modifies this
      ensures Valid()
      ensures resources == []
      ensures allTags == old(allTags) && searchTerm == old(searchTerm)
      ensures selectedTags == old(selectedTags) && selectedType == old(selectedType)
    {
      resources := [];
    }

    /** A click on a tag chip. */
    method ToggleTag(tag: string)
      requires Valid()
      modifies this
      ensures Valid()
      ensures selectedTags == Toggle(old(selectedTags), tag)
      ensures resources == old(resources) && allTags == old(allTags)
      ensures searchTerm == old(searchTerm) && selectedType == old(selectedType)
    {
      selectedTags := Toggle(selectedTags, tag);
    }

    /** Typing in the search box. */
    method SetSearchTerm(term: string)
      requires Valid()
      modifies this
      ensures Valid()
      ensures searchTerm == term
      ensures resources == old(resources) && allTags == old(allTags)
      ensures selectedTags == old(selectedTags) && selectedType == old(selectedType)
    {
      searchTerm := term;
    }

    /** A click on a type chip; "All" selects no type. */
    method SelectType(t: Option<ResourceTypes.ResourceType>)
      requires Valid()
      modifies this
      ensures Valid()
      ensures selectedType == t
      ensures resources == old(resources) && allTags == old(allTags)
      ensures searchTerm == old(searchTerm) && selectedTags == old(selectedTags)
    {
      selectedType := t;
    }
  }
}
