/** `PivotalProject`: a project's comma-separated labels, kept as a raw
    string and a list that each setter derives from the other, and the
    read-through story cache behind `FetchStories`, `FetchBugs`,
    `FetchChores`, `FetchFeatures` and `FetchReleases`. */
module Projects {
  import opened Base
  import opened Text
  import opened Enumerations
  import PivotalFilterHelper
  import PivotalService
  import Stories

  /** The children dropped from a project before `AddProject` sends it. */
  const ExcludeNodesOnSubmit: seq<string> := ["id", "labels", "current_velocity"]

  /** The root path `AddProject` passes to the sanitizer. */
  const AddRootPath: string := "//project/"

  /** `PivotalFetchOptions`: whether to answer from the cache, and whether
      to reload it first. */
  datatype FetchOptions = FetchOptions(useCachedItems: bool, refreshCache: bool)

  /** `stories.Where(x => x.StoryType == t)`: the stories whose type has
      the same underlying value as `t`, in their order. */
  function OfType(stories: seq<Stories.PivotalStory>, t: PivotalStoryType): (r: seq<Stories.PivotalStory>)
    reads set s | s in stories
    ensures |r| <= |stories|
    ensures forall k :: 0 <= k < |r| ==> r[k] in stories && SameStoryType(r[k].storyType, t)
    ensures forall k :: 0 <= k < |stories| && SameStoryType(stories[k].storyType, t) ==> stories[k] in r
  {
    if stories == [] then []
    else OfType(stories[..|stories| - 1], t) +
         (if SameStoryType(stories[|stories| - 1].storyType, t) then [stories[|stories| - 1]] else [])
  }

  class PivotalProject {
    var id: Option<int>
    var name: Option<string>
    var labels: Option<string>
    var labelValues: Option<seq<string>>
    var storyCache: seq<Stories.PivotalStory>

    /** `new PivotalProject()`: an empty label list and an empty cache. */
    constructor ()
      ensures id == None && name == None && labels == None
      ensures labelValues == Some([]) && storyCache == []
    {
      id := None;
      name := None;
      labels := None;
      labelValues := Some([]);
      storyCache := [];
    }

    /** `new PivotalProject(id, name)`. */
    constructor WithIdAndName(id: int, name: Option<string>)
      ensures this.id == Some(id) && this.name == name && labels == None
      ensures labelValues == Some([]) && storyCache == []
    {
      this.id := Some(id);
      this.name := name;
      labels := None;
      labelValues := Some([]);
      storyCache := [];
    }

    /** `Id.GetValueOrDefault()`. */
    function ProjectId(): int
      reads this`id
    {
      if id.Some? then id.value else 0
    }

    /** The `LabelValues` setter: every value followed by a comma, then the
        last character dropped; a null list throws at the loop and changes
        nothing. The raw labels become the values joined by commas. */
    method SetLabelValues(value: Option<seq<string>>) returns (r: Outcome)
      modifies this
      ensures value.None? ==> r == Threw(NullReference) && labels == old(labels) &&
                              labelValues == old(labelValues)
      ensures value.Some? ==>
        (r == Completed && labelValues == value &&
         labels == Some(if value.value == [] then "" else Joined(value.value, ',')))
      ensures id == old(id) && name == old(name) && storyCache == old(storyCache)
    {
      if value.None? {
        return Threw(NullReference);
      }
      var listVals := value.value;
      var tmpLabels := AppendEach(listVals, ',');
      if |tmpLabels| > 0 {
        labels := Some(tmpLabels[..|tmpLabels| - 1]);
      } else {
        labels := Some("");
      }
      labelValues := value;
      if listVals != [] {
        JoinTrailingIsJoinedPlusSep(listVals, ',');
        assert tmpLabels[..|tmpLabels| - 1] == Joined(listVals, ',');
      }
      return Completed;
    }

    /** The `Labels` setter: the text is stored and split on commas into
        the `LabelValues` setter, whose join gives the text back; a null
        text is stored and then throws at the split. */
    method SetLabels(value: Option<string>) returns (r: Outcome)
      modifies this
      ensures value.None? ==> r == Threw(NullReference) && labels == None &&
                              labelValues == old(labelValues)
      ensures value.Some? ==> r == Completed && labels == value &&
                              labelValues == Some(Split(value.value, ','))
      ensures value == Some("") ==> labelValues == Some([""])
      ensures id == old(id) && name == old(name) && storyCache == old(storyCache)
    {
      labels := value;
      if value.None? {
        return Threw(NullReference);
      }
      JoinedOfSplit(value.value, ',');
      r := SetLabelValues(Some(Split(value.value, ',')));
    }

    /** `FetchStories(user, options)`: a refresh replaces the cache with one
        unfiltered fetch; the cached answer is the cache itself, otherwise
        a further unfiltered fetch is made. */
    method FetchStories(server: Stories.StoryServer, token: Option<string>, options: FetchOptions)
      returns (r: seq<Stories.PivotalStory>)
      modifies this`storyCache, server
      ensures id == old(id) && name == old(name) && labels == old(labels) && labelValues == old(labelValues)
      ensures var q := Stories.StoriesQuery(ProjectId(), token);
        var n := |old(server.requests)|;
        var fetch := server.answer;
        match options
        case FetchOptions(true, true) =>
          server.requests == old(server.requests) + [q] && storyCache == fetch(n, q) && r == storyCache
        case FetchOptions(false, true) =>
          server.requests == old(server.requests) + [q, q] && storyCache == fetch(n, q) && r == fetch(n + 1, q)
        case FetchOptions(true, false) =>
          server.requests == old(server.requests) && storyCache == old(storyCache) && r == storyCache
        case FetchOptions(false, false) =>
          server.requests == old(server.requests) + [q] && storyCache == old(storyCache) && r == fetch(n, q)
    {
      if options.refreshCache {
        storyCache := Stories.FetchStories(server, token, ProjectId(), Some(""));
      }
      if options.useCachedItems {
        return storyCache;
      }
      r := Stories.FetchStories(server, token, ProjectId(), Some(""));
    }

    /** The shared body of the four filtered fetches: a refresh still stores
        every story; the cached answer keeps the cache's stories of type
        `t`; the live answer asks the server with `filter=type:<name>`. */
    method FetchOfType(server: Stories.StoryServer, token: Option<string>, t: PivotalStoryType,
                       options: FetchOptions) returns (r: seq<Stories.PivotalStory>)
      modifies this`storyCache, server
      ensures id == old(id) && name == old(name) && labels == old(labels) && labelValues == old(labelValues)
      ensures var q := Stories.StoriesQuery(ProjectId(), token);
        var qt := q + "&" + PivotalFilterHelper.BuildStoryTypeFilter(t, Some(""));
        var n := |old(server.requests)|;
        var fetch := server.answer;
        match options
        case FetchOptions(true, true) =>
          server.requests == old(server.requests) + [q] && storyCache == fetch(n, q) &&
          r == OfType(storyCache, t)
        case FetchOptions(false, true) =>
          server.requests == old(server.requests) + [q, qt] && storyCache == fetch(n, q) &&
          r == fetch(n + 1, qt)
        case FetchOptions(true, false) =>
          server.requests == old(server.requests) && storyCache == old(storyCache) &&
          r == OfType(storyCache, t)
        case FetchOptions(false, false) =>
          server.requests == old(server.requests) + [qt] && storyCache == old(storyCache) &&
          r == fetch(n, qt)
    {
      RefreshIfAsked(server, token, options.refreshCache);
      r := AnswerOfType(server, token, t, options.useCachedItems);
    }

    /** The first step of every fetch: with `RefreshCache` the whole story
        list is fetched and stored. */
    method RefreshIfAsked(server: Stories.StoryServer, token: Option<string>, refresh: bool)
      modifies this`storyCache, server
      ensures var q := Stories.StoriesQuery(ProjectId(), token);
        if refresh then
          server.requests == old(server.requests) + [q] && storyCache == server.answer(|old(server.requests)|, q)
        else
          server.requests == old(server.requests) && storyCache == old(storyCache)
    {
      if refresh {
        storyCache := Stories.FetchStories(server, token, ProjectId(), Some(""));
      }
    }

    /** The answer of a typed fetch: the cache's stories of type `t`, or one
        request with `filter=type:<name>`. */
    method AnswerOfType(server: Stories.StoryServer, token: Option<string>, t: PivotalStoryType, cached: bool)
      returns (r: seq<Stories.PivotalStory>)
      modifies server
      ensures var qt := Stories.StoriesQuery(ProjectId(), token) + "&" + PivotalFilterHelper.BuildStoryTypeFilter(t, Some(""));
        if cached then
          server.requests == old(server.requests) && r == OfType(storyCache, t)
        else
          server.requests == old(server.requests) + [qt] && r == server.answer(|old(server.requests)|, qt)
    {
      if cached {
        r := OfType(storyCache, t);
      } else {
        TypeFilterIsNotEmpty(t);
        r := Stories.FetchStories(server, token, ProjectId(), Some(PivotalFilterHelper.BuildStoryTypeFilter(t, Some(""))));
      }
    }

    /** `FetchBugs(user, options)`. */
    method FetchBugs(server: Stories.StoryServer, token: Option<string>, options: FetchOptions)
      returns (r: seq<Stories.PivotalStory>)
      modifies this`storyCache, server
      ensures id == old(id) && name == old(name) && labels == old(labels) && labelValues == old(labelValues)
      ensures var q := Stories.StoriesQuery(ProjectId(), token);
        var qt := q + "&filter=type:" + StoryTypeName(bug);
        var n := |old(server.requests)|;
        var fetch := server.answer;
        match options
        case FetchOptions(true, true) =>
          server.requests == old(server.requests) + [q] && storyCache == fetch(n, q) &&
          r == OfType(storyCache, bug)
        case FetchOptions(false, true) =>
          server.requests == old(server.requests) + [q, qt] && storyCache == fetch(n, q) &&
          r == fetch(n + 1, qt)
        case FetchOptions(true, false) =>
          server.requests == old(server.requests) && storyCache == old(storyCache) &&
          r == OfType(storyCache, bug)
        case FetchOptions(false, false) =>
          server.requests == old(server.requests) + [qt] && storyCache == old(storyCache) &&
          r == fetch(n, qt)
    {
      r := FetchOfType(server, token, bug, options);
      TypeFilterSpelling(Stories.StoriesQuery(ProjectId(), token), bug);
    }

    /** `FetchChores(user, options)`. */
    method FetchChores(server: Stories.StoryServer, token: Option<string>, options: FetchOptions)
      returns (r: seq<Stories.PivotalStory>)
      modifies this`storyCache, server
      ensures id == old(id) && name == old(name) && labels == old(labels) && labelValues == old(labelValues)
      ensures var q := Stories.StoriesQuery(ProjectId(), token);
        var qt := q + "&filter=type:" + StoryTypeName(chore);
        var n := |old(server.requests)|;
        var fetch := server.answer;
        match options
        case FetchOptions(true, true) =>
          server.requests == old(server.requests) + [q] && storyCache == fetch(n, q) &&
          r == OfType(storyCache, chore)
        case FetchOptions(false, true) =>
          server.requests == old(server.requests) + [q, qt] && storyCache == fetch(n, q) &&
          r == fetch(n + 1, qt)
        case FetchOptions(true, false) =>
          server.requests == old(server.requests) && storyCache == old(storyCache) &&
          r == OfType(storyCache, chore)
        case FetchOptions(false, false) =>
          server.requests == old(server.requests) + [qt] && storyCache == old(storyCache) &&
          r == fetch(n, qt)
    {
      r := FetchOfType(server, token, chore, options);
      TypeFilterSpelling(Stories.StoriesQuery(ProjectId(), token), chore);
    }

    /** `FetchFeatures(user, options)`. */
    method FetchFeatures(server: Stories.StoryServer, token: Option<string>, options: FetchOptions)
      returns (r: seq<Stories.PivotalStory>)
      modifies this`storyCache, server
      ensures id == old(id) && name == old(name) && labels == old(labels) && labelValues == old(labelValues)
      ensures var q := Stories.StoriesQuery(ProjectId(), token);
        var qt := q + "&filter=type:" + StoryTypeName(feature);
        var n := |old(server.requests)|;
        var fetch := server.answer;
        match options
        case FetchOptions(true, true) =>
          server.requests == old(server.requests) + [q] && storyCache == fetch(n, q) &&
          r == OfType(storyCache, feature)
        case FetchOptions(false, true) =>
          server.requests == old(server.requests) + [q, qt] && storyCache == fetch(n, q) &&
          r == fetch(n + 1, qt)
        case FetchOptions(true, false) =>
          server.requests == old(server.requests) && storyCache == old(storyCache) &&
          r == OfType(storyCache, feature)
        case FetchOptions(false, false) =>
          server.requests == old(server.requests) + [qt] && storyCache == old(storyCache) &&
          r == fetch(n, qt)
    {
      r := FetchOfType(server, token, feature, options);
      TypeFilterSpelling(Stories.StoriesQuery(ProjectId(), token), feature);
    }

    /** `FetchReleases(user, options)`. */
    method FetchReleases(server: Stories.StoryServer, token: Option<string>, options: FetchOptions)
      returns (r: seq<Stories.PivotalStory>)
      modifies this`storyCache, server
      ensures id == old(id) && name == old(name) && labels == old(labels) && labelValues == old(labelValues)
      ensures var q := Stories.StoriesQuery(ProjectId(), token);
        var qt := q + "&filter=type:" + StoryTypeName(release);
        var n := |old(server.requests)|;
        var fetch := server.answer;
        match options
        case FetchOptions(true, true) =>
          server.requests == old(server.requests) + [q] && storyCache == fetch(n, q) &&
          r == OfType(storyCache, release)
        case FetchOptions(false, true) =>
          server.requests == old(server.requests) + [q, qt] && storyCache == fetch(n, q) &&
          r == fetch(n + 1, qt)
        case FetchOptions(true, false) =>
          server.requests == old(server.requests) && storyCache == old(storyCache) &&
          r == OfType(storyCache, release)
        case FetchOptions(false, false) =>
          server.requests == old(server.requests) + [qt] && storyCache == old(storyCache) &&
          r == fetch(n, qt)
    {
      r := FetchOfType(server, token, release, options);
      TypeFilterSpelling(Stories.StoriesQuery(ProjectId(), token), release);
    }
  }

  /** The type filter is never empty, so the live path always appends it. */
  lemma {:induction false} TypeFilterIsNotEmpty(t: PivotalStoryType)
    ensures PivotalFilterHelper.BuildStoryTypeFilter(t, Some("")) != ""
  {
  }

  /** The live filter of a typed fetch, written out: the type's name after
      `&filter=type:`. */
  lemma {:induction false} TypeFilterSpelling(q: string, t: PivotalStoryType)
    ensures q + "&" + PivotalFilterHelper.BuildStoryTypeFilter(t, Some("")) == q + "&filter=type:" + StoryTypeName(t)
  {
    var name := StoryTypeName(t);
    PivotalFilterHelper.StoryTypeFilterText(t);
    TypeFilterAfterAmpersand(q, name);
  }

  /** The same for any name, with the separator and the filter's head run together. */
  lemma {:induction false} TypeFilterAfterAmpersand(q: string, name: string)
    ensures q + "&" + ("filter=type:" + name) == q + "&filter=type:" + name
  {
    Regroup(q, "&", "filter=type:", name);
    assert "&" + "filter=type:" == "&filter=type:";
  }

  /** Appending a two-part text after a separator, regrouped. */
  lemma {:induction false} Regroup(q: string, sep: string, f: string, name: string)
    ensures q + sep + (f + name) == q + (sep + f) + name
  {
  }

  /** The sanitizing step of `AddProject`, the call at line 398 as written.
      `AddProject` itself throws at its `String.Format` before it gets here. */
  method SanitizeForAdd(xml: PivotalService.Document) returns (r: Outcome)
    modifies xml
    ensures match PivotalService.Clean(AddRootPath, xml.rootName,
                                       PivotalService.Root(old(xml.rootAttributes), old(xml.children)),
                                       ExcludeNodesOnSubmit, true)
      case Ok(root) => r == Completed && xml.rootAttributes == root.attributes && xml.children == root.children
      case Err(e) => r == Threw(e) && xml.rootAttributes == old(xml.rootAttributes) &&
                     xml.children == old(xml.children)
  {
    r := PivotalService.CleanXmlForSubmission(xml, AddRootPath, ExcludeNodesOnSubmit, true);
  }

  // ---------------------------------------------------------------------
  // Properties
  // ---------------------------------------------------------------------

  /** The type filter keeps the order of the stories: filtering a joined
      list is joining the filtered parts. */
  lemma {:induction false} OfTypeAppend(a: seq<Stories.PivotalStory>, b: seq<Stories.PivotalStory>,
                                        t: PivotalStoryType)
    ensures OfType(a + b, t) == OfType(a, t) + OfType(b, t)
    decreases |b|
  {
    if b == [] {
      assert a + b == a;
    } else {
      var b' := b[..|b| - 1];
      assert (a + b)[..|a + b| - 1] == a + b';
      assert (a + b)[|a + b| - 1] == b[|b| - 1];
      OfTypeAppend(a, b', t);
    }
  }

  /** A list of stories all of type `t` passes the filter whole. */
  lemma {:induction false} OfTypeAll(stories: seq<Stories.PivotalStory>, t: PivotalStoryType)
    requires forall k :: 0 <= k < |stories| ==> SameStoryType(stories[k].storyType, t)
    ensures OfType(stories, t) == stories
  {
    if stories != [] {
      var init, last := stories[..|stories| - 1], stories[|stories| - 1];
      assert OfType(init, t) == init by {
        assert forall k :: 0 <= k < |init| ==> init[k] == stories[k];
        OfTypeAll(init, t);
      }
      assert SameStoryType(last.storyType, t);
      assert OfType(stories, t) == OfType(init, t) + [last];
      assert stories == init + [last];
    }
  }

  /** A list with no story of type `t` gives nothing. */
  lemma {:induction false} OfTypeNone(stories: seq<Stories.PivotalStory>, t: PivotalStoryType)
    requires forall k :: 0 <= k < |stories| ==> !SameStoryType(stories[k].storyType, t)
    ensures OfType(stories, t) == []
  {
    if stories != [] {
      var init := stories[..|stories| - 1];
      assert forall k :: 0 <= k < |init| ==> init[k] == stories[k];
      OfTypeNone(init, t);
    }
  }

  /** The sanitizing step at `AddProject`'s line 398 would find the project
      root: attributes are all dropped and each excluded name that occurs at
      most once is gone. */
  lemma {:induction false} AddProjectDropsReadOnlyFields(root: PivotalService.Root, s: string)
    requires s in ExcludeNodesOnSubmit && PivotalService.CountNamed(root.children, s) <= 1
    ensures var r := PivotalService.Clean(AddRootPath, "project", root, ExcludeNodesOnSubmit, true);
      r.Ok? && r.value.attributes == 0 &&
      (forall j :: 0 <= j < |r.value.children| ==> r.value.children[j].attributes == 0) &&
      (forall j :: 0 <= j < |r.value.children| ==> r.value.children[j].name != s)
  {
    assert AddRootPath == "//" + "project" + "/" by {
      RootPathSpelling();
    }
    PivotalService.CleanDropsListedName("project", root, ExcludeNodesOnSubmit, s);
  }

  lemma {:induction false} RootPathSpelling()
    ensures AddRootPath == "//" + "project" + "/"
  {
  }
}
