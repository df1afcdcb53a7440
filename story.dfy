/** `PivotalStory`: a story with paired private fields whose setters update
    each other. The wire side of each pair is a string (the XML element),
    the typed side a `DateTime`, an enum value or a list:

    - `CreationDateString`/`CreationDate` and `AcceptedDateString`/`AcceptedDate`:
      the typed setter renders the wire text, the wire setter parses and
      then goes through the typed setter;
    - `StoryTypeString`/`StoryType`: `Enum.Parse` one way, `ToString` the other;
    - `Labels`/`LabelValues`: split on commas one way, a trailing-comma join
      cut to the length of the previous `_labels` the other, so that a
      non-empty label text loses its last character and an empty one throws;
    - `CurrentState`: the lower-cased state text parsed against the
      capitalised `StoryState` names, so only numerals parse. */
module Stories {
  import opened Base
  import opened Text
  import opened PivotalConverters
  import opened Enumerations
  import PivotalService

  /** The children dropped from a story before it is sent. */
  const ExcludeNodesOnSubmit: seq<string> := ["url", "created_at", "accepted_at", "id", "project_id"]

  /** The root path add, update and delete pass to the sanitizer. */
  const SubmitRootPath: string := "//story/"

  // ---------------------------------------------------------------------
  // The pure rules behind the setters and the getter
  // ---------------------------------------------------------------------

  /** What the `LabelValues` setter stores in `_labels` for the list
      `values` when `_labels` is `current`: the join with a comma after
      every element, cut to one character less than `current`. A null
      `_labels` throws, and so does a cut `Substring` rejects. */
  function TrimmedLabels(values: seq<string>, current: Option<string>): (r: Result<string>)
    ensures current.None? ==> r == Err(NullReference)
    ensures current.Some? ==> (r.Ok? <==> 1 <= |current.value| <= |JoinTrailing(values, ',')| + 1)
    ensures current.Some? && r.Err? ==> r == Err(ArgumentOutOfRange)
    ensures r.Ok? ==> |r.value| == |current.value| - 1 &&
                      |r.value| <= |JoinTrailing(values, ',')| &&
                      r.value == JoinTrailing(values, ',')[..|r.value|]
  {
    var tmp := JoinTrailing(values, ',');
    match current
    case None => Err(NullReference)
    case Some(c) =>
      if |c| - 1 < 0 || |c| - 1 > |tmp| then Err(ArgumentOutOfRange) else Ok(tmp[..|c| - 1])
  }

  /** The `CurrentState` getter on the state text `value`: `ToLower` (which
      throws on null), then `Enum.Parse` with any exception swallowed into
      `Unknown`. */
  function CurrentStateOf(value: Option<string>): (r: Result<StoryState>)
    ensures r.Err? <==> value.None?
  {
    match value
    case None => Err(NullReference)
    case Some(v) =>
      match EnumParse(StoryStateNames, Some(Lower(v)))
      case Ok(n) => Ok(StoryStateFromCode(n))
      case Err(_) => Ok(Unknown)
  }

  /** The snapshot of a story's fields, for stating a setter's whole effect. */
  datatype StoryFields = StoryFields(
    labels: Option<string>, labelValues: Option<seq<string>>,
    storyTypeString: Option<string>, storyType: PivotalStoryType,
    creationDateString: Option<string>, creationDate: DateTime,
    acceptedDateString: Option<string>, acceptedDate: DateTime,
    name: Option<string>, description: Option<string>, currentStateValue: Option<string>)

  class PivotalStory {
    var labels: Option<string>
    var labelValues: Option<seq<string>>
    var storyTypeString: Option<string>
    var storyType: PivotalStoryType
    var creationDateString: Option<string>
    var creationDate: DateTime
    var acceptedDateString: Option<string>
    var acceptedDate: DateTime
    var name: Option<string>
    var description: Option<string>
    var currentStateValue: Option<string>

    function Fields(): StoryFields
      reads this
    {
      StoryFields(labels, labelValues, storyTypeString, storyType,
                  creationDateString, creationDate, acceptedDateString, acceptedDate,
                  name, description, currentStateValue)
    }

    /** `new PivotalStory()`: an empty label list and the story type
        `feature`, set through its setter. */
    constructor ()
      ensures Fields() == StoryFields(None, Some([]), Some("feature"), feature,
                                      None, Zero, None, Zero, None, None, None)
    {
      labels := None;
      labelValues := Some([]);
      storyType := feature;
      storyTypeString := Some(StoryTypeName(feature));
      creationDateString := None;
      creationDate := Zero;
      acceptedDateString := None;
      acceptedDate := Zero;
      name := None;
      description := None;
      currentStateValue := None;
    }

    /** `new PivotalStory(storyType, name, description)`: does not chain to
        the default constructor, so the label list stays null. */
    constructor WithType(storyType: PivotalStoryType, name: Option<string>, description: Option<string>)
      ensures Fields() == StoryFields(None, None, Some(StoryTypeName(storyType)), storyType,
                                      None, Zero, None, Zero, name, description, None)
    {
      labels := None;
      labelValues := None;
      this.storyType := storyType;
      storyTypeString := Some(StoryTypeName(storyType));
      creationDateString := None;
      creationDate := Zero;
      acceptedDateString := None;
      acceptedDate := Zero;
      this.name := name;
      this.description := description;
      currentStateValue := None;
    }

    // -------------------------------------------------------------------
    // StoryType / StoryTypeString
    // -------------------------------------------------------------------

    /** The `StoryType` setter: the enum value and its `ToString`. */
    method SetStoryType(t: PivotalStoryType)
      modifies this
      ensures Fields() == old(Fields()).(storyType := t, storyTypeString := Some(StoryTypeName(t)))
    {
      storyType := t;
      storyTypeString := Some(StoryTypeName(t));
    }

    /** The `StoryTypeString` setter: the text is stored first, then parsed;
        on success the `StoryType` setter overwrites the text with the
        parsed value's name, on failure the exception escapes with the text
        stored and the type unchanged. */
    method SetStoryTypeString(value: Option<string>) returns (r: Outcome)
      modifies this
      ensures match EnumParse(StoryTypeNames, value)
        case Ok(n) =>
          r == Completed &&
          Fields() == old(Fields()).(storyType := StoryTypeFromCode(n),
                                     storyTypeString := Some(StoryTypeName(StoryTypeFromCode(n))))
        case Err(e) =>
          r == Threw(e) && Fields() == old(Fields()).(storyTypeString := value)
    {
      storyTypeString := value;
      var parsed := EnumParse(StoryTypeNames, value);
      if parsed.Err? {
        return Threw(parsed.error);
      }
      SetStoryType(StoryTypeFromCode(parsed.value));
      return Completed;
    }

    // -------------------------------------------------------------------
    // Labels / LabelValues
    // -------------------------------------------------------------------

    /** The `LabelValues` setter: a null list throws in the loop; otherwise
        the loop appends every label and a comma, and `_labels` becomes that
        text cut to the previous `_labels` length minus one. */
    method SetLabelValues(value: Option<seq<string>>) returns (r: Outcome)
      modifies this
      ensures value.None? ==> r == Threw(NullReference) && Fields() == old(Fields())
      ensures value.Some? ==>
        match TrimmedLabels(value.value, old(labels))
        case Ok(t) => r == Completed && Fields() == old(Fields()).(labels := Some(t), labelValues := value)
        case Err(e) => r == Threw(e) && Fields() == old(Fields())
    {
      if value.None? {
        return Threw(NullReference);
      }
      var tmpLabels := AppendEach(value.value, ',');
      if labels.None? {
        return Threw(NullReference);
      }
      var length := |labels.value| - 1;
      if length < 0 || length > |tmpLabels| {
        return Threw(ArgumentOutOfRange);
      }
      labels := Some(tmpLabels[..length]);
      labelValues := value;
      return Completed;
    }

    /** The `Labels` setter: the text is stored, split on commas and handed
        to the `LabelValues` setter. A null text throws at the split; a
        non-empty text `s` ends up as `s` without its last character; the
        empty text throws from the cut. */
    method SetLabels(value: Option<string>) returns (r: Outcome)
      modifies this
      ensures value.None? ==> r == Threw(NullReference) && Fields() == old(Fields()).(labels := None)
      ensures value.Some? && value.value == "" ==>
        r == Threw(ArgumentOutOfRange) && Fields() == old(Fields()).(labels := value)
      ensures value.Some? && value.value != "" ==>
        var s := value.value;
        r == Completed &&
        Fields() == old(Fields()).(labels := Some(s[..|s| - 1]), labelValues := Some(Split(s, ',')))
    {
      labels := value;
      if value.None? {
        return Threw(NullReference);
      }
      LabelsLoseLastCharacter(value.value);
      r := SetLabelValues(Some(Split(value.value, ',')));
    }

    // -------------------------------------------------------------------
    // CreationDate / CreationDateString and AcceptedDate / AcceptedDateString
    // -------------------------------------------------------------------

    /** The `CreationDate` setter: the value and its wire rendering. */
    method SetCreationDate(d: DateTime)
      modifies this
      ensures Fields() == old(Fields()).(creationDate := d,
                                         creationDateString := Some(ConvertToPivotalDateTime(d)))
    {
      creationDate := d;
      creationDateString := Some(PivotalConverters.Format(d) + " UTC");
    }

    /** The `CreationDateString` setter: the text is stored, then (for a
        non-null text) parsed without its last four characters and passed
        to the `CreationDate` setter, which overwrites the text; a short or
        unparsable text gives `new DateTime()`. A null text throws at
        `value.Length` after being stored. */
    method SetCreationDateString(value: Option<string>) returns (r: Outcome)
      modifies this
      ensures value.None? ==>
        r == Threw(NullReference) && Fields() == old(Fields()).(creationDateString := None)
      ensures value.Some? ==>
        var d := WireToDateTime(value.value);
        r == Completed &&
        Fields() == old(Fields()).(creationDate := d, creationDateString := Some(ConvertToPivotalDateTime(d)))
    {
      creationDateString := value;
      if value.None? {
        return Threw(NullReference);
      }
      var v := value.value;
      if |v| > 4 {
        var parsed := ParseExact(v[..|v| - 4]);
        if parsed.Some? {
          SetCreationDate(parsed.value);
        } else {
          SetCreationDate(Zero);
        }
      } else {
        SetCreationDate(Zero);
      }
      return Completed;
    }

    /** The `AcceptedDate` setter. */
    method SetAcceptedDate(d: DateTime)
      modifies this
      ensures Fields() == old(Fields()).(acceptedDate := d,
                                         acceptedDateString := Some(ConvertToPivotalDateTime(d)))
    {
      acceptedDate := d;
      acceptedDateString := Some(PivotalConverters.Format(d) + " UTC");
    }

    /** The `AcceptedDateString` setter, the same rule as the creation date's. */
    method SetAcceptedDateString(value: Option<string>) returns (r: Outcome)
      modifies this
      ensures value.None? ==>
        r == Threw(NullReference) && Fields() == old(Fields()).(acceptedDateString := None)
      ensures value.Some? ==>
        var d := WireToDateTime(value.value);
        r == Completed &&
        Fields() == old(Fields()).(acceptedDate := d, acceptedDateString := Some(ConvertToPivotalDateTime(d)))
    {
      acceptedDateString := value;
      if value.None? {
        return Threw(NullReference);
      }
      var v := value.value;
      if |v| > 4 {
        var parsed := ParseExact(v[..|v| - 4]);
        if parsed.Some? {
          SetAcceptedDate(parsed.value);
        } else {
          SetAcceptedDate(Zero);
        }
      } else {
        SetAcceptedDate(Zero);
      }
      return Completed;
    }

    // -------------------------------------------------------------------
    // CurrentState
    // -------------------------------------------------------------------

    /** The `CurrentState` getter: `Unknown` unless the lower-cased, trimmed
        state text is an Int32 numeral; a null text throws. */
    function CurrentState(): (r: Result<StoryState>)
      reads this
      ensures r.Err? <==> currentStateValue.None?
      ensures r.Ok? && !IsInt32Numeral(Trim(Lower(currentStateValue.value))) ==> r.value == Unknown
    {
      match currentStateValue
      case None => CurrentStateOf(None)
      case Some(v) =>
        CurrentStateUnknownUnlessNumeral(v);
        CurrentStateOf(Some(v))
    }
  }

  /** The tracker as the story queries see it: every GET of a story list
      is recorded, and the answer depends on the address and on how many
      requests came before it. */
  class StoryServer {
    var requests: seq<string>
    const answer: (nat, string) -> seq<PivotalStory>

    constructor (answer: (nat, string) -> seq<PivotalStory>)
      ensures requests == [] && this.answer == answer
    {
      requests := [];
      this.answer := answer;
    }

    /** `PivotalService.GetData(url)` followed by deserialization. */
    method GetStories(url: string) returns (r: seq<PivotalStory>)
      modifies this
      ensures requests == old(requests) + [url]
      ensures r == answer(|old(requests)|, url)
    {
      r := answer(|requests|, url);
      requests := requests + [url];
    }
  }

  /** The address of a project's story list: `String.Format` writes a null
      token as the empty string. */
  function StoriesQuery(projectId: int, token: Option<string>): string
  {
    PivotalService.BaseUrl + "/projects/" + IntDecimal(projectId) + "/stories?token=" + OrEmpty(token)
  }

  /** `FetchStories(user, projectId, filter)`: one GET of the story list,
      with `&` and the filter appended when the filter is neither null nor
      empty. */
  method FetchStories(server: StoryServer, token: Option<string>, projectId: int, filter: Option<string>)
    returns (r: seq<PivotalStory>)
    modifies server
    ensures var url := if filter.None? || filter.value == "" then StoriesQuery(projectId, token)
                       else StoriesQuery(projectId, token) + "&" + filter.value;
      server.requests == old(server.requests) + [url] &&
      r == server.answer(|old(server.requests)|, url)
  {
    var url := StoriesQuery(projectId, token);
    if filter.Some? && filter.value != "" {
      url := url + "&" + filter.value;
    }
    r := server.GetStories(url);
  }

  /** `new PivotalStory(storyType, name, description, labels)`: the
      three-argument constructor, then the `Labels` setter; an exception
      there leaves no story. */
  method NewWithLabels(storyType: PivotalStoryType, name: Option<string>, description: Option<string>,
                       labels: Option<string>) returns (r: Result<PivotalStory>)
    ensures labels.None? ==> r == Err(NullReference)
    ensures labels.Some? && labels.value == "" ==> r == Err(ArgumentOutOfRange)
    ensures labels.Some? && labels.value != "" ==>
      var s := labels.value;
      r.Ok? && fresh(r.value) &&
      r.value.Fields() == StoryFields(Some(s[..|s| - 1]), Some(Split(s, ',')),
                                      Some(StoryTypeName(storyType)), storyType,
                                      None, Zero, None, Zero, name, description, None)
  {
    var story := new PivotalStory.WithType(storyType, name, description);
    var outcome := story.SetLabels(labels);
    if outcome.Threw? {
      return Err(outcome.error);
    }
    return Ok(story);
  }

  /** The sanitizing step of `AddStory`, `UpdateStory` and `DeleteStory`:
      the story exclusions under `//story/`, attribute-carrying children
      dropped. */
  method SanitizeForSubmission(xml: PivotalService.Document) returns (r: Outcome)
    modifies xml
    ensures match PivotalService.Clean(SubmitRootPath, xml.rootName,
                                       PivotalService.Root(old(xml.rootAttributes), old(xml.children)),
                                       ExcludeNodesOnSubmit, true)
      case Ok(root) => r == Completed && xml.rootAttributes == root.attributes && xml.children == root.children
      case Err(e) => r == Threw(e) && xml.rootAttributes == old(xml.rootAttributes) &&
                     xml.children == old(xml.children)
  {
    r := PivotalService.CleanXmlForSubmission(xml, SubmitRootPath, ExcludeNodesOnSubmit, true);
  }

  // ---------------------------------------------------------------------
  // Properties
  // ---------------------------------------------------------------------

  /** The `Labels` setter keeps the split list but cuts the text: the
      trailing-comma join of the pieces is the text plus a comma, and it is
      cut to the text's length minus one. The empty text cannot be cut. */
  lemma {:induction false} LabelsLoseLastCharacter(s: string)
    ensures s == "" ==> TrimmedLabels(Split(s, ','), Some(s)) == Err(ArgumentOutOfRange)
    ensures s != "" ==> TrimmedLabels(Split(s, ','), Some(s)) == Ok(s[..|s| - 1])
  {
    JoinTrailingOfSplit(s, ',');
    CutOfTrailingJoin(s, Split(s, ','));
  }

  /** Cutting `s` plus a comma to the length of `s` minus one. */
  lemma {:induction false} CutOfTrailingJoin(s: string, values: seq<string>)
    requires JoinTrailing(values, ',') == s + [',']
    ensures s == "" ==> TrimmedLabels(values, Some(s)) == Err(ArgumentOutOfRange)
    ensures s != "" ==> TrimmedLabels(values, Some(s)) == Ok(s[..|s| - 1])
  {
    if s != "" {
      assert (s + [','])[..|s| - 1] == s[..|s| - 1];
    }
  }

  /** Lower-cased text never names a state, since every state name starts
      with a capital: the getter is `Unknown` except for an Int32 numeral,
      which converts to the state of that code (`UndeclaredState` outside
      0 to 7). */
  lemma {:induction false} CurrentStateUnknownUnlessNumeral(v: string)
    ensures var t := Trim(Lower(v));
      CurrentStateOf(Some(v)) ==
        if IsInt32Numeral(t) then Ok(StoryStateFromCode(ParseInt32(t).value)) else Ok(Unknown)
  {
    var t := Trim(Lower(v));
    if IsInt32Numeral(t) {
      EnumParseOfNumeral(StoryStateNames, Lower(v));
    } else {
      LoweredTrimHasNoCapital(v);
      StateNamesCapitalised();
      EnumParseRejectsLowerCase(StoryStateNames, Lower(v));
    }
  }

  lemma {:induction false} LoweredTrimHasNoCapital(v: string)
    ensures forall k :: 0 <= k < |Trim(Lower(v))| ==> !IsUpperAscii(Trim(Lower(v))[k])
  {
    var lowered := Lower(v);
    var t := Trim(lowered);
    forall k | 0 <= k < |t| ensures !IsUpperAscii(t[k]) {
      var x := t[k];
      assert x in lowered;
      var i :| 0 <= i < |lowered| && lowered[i] == x;
    }
  }

  /** The text the `StoryType` setter writes is accepted by the
      `StoryTypeString` setter and leads back to the same type and text. */
  lemma {:induction false} StoryTypeTextAccepted(t: PivotalStoryType)
    requires CanonicalStoryType(t)
    ensures EnumParse(StoryTypeNames, Some(StoryTypeName(t))).Ok?
    ensures StoryTypeFromCode(EnumParse(StoryTypeNames, Some(StoryTypeName(t))).value) == t
  {
    StoryTypeTextRoundTrip(t);
  }

  /** A story sent with attribute dropping on and its root found: no
      attribute is left on the root or any child, and each excluded name
      that occurs at most once is gone. */
  lemma {:induction false} SubmissionDropsReadOnlyFields(root: PivotalService.Root, s: string)
    requires s in ExcludeNodesOnSubmit && PivotalService.CountNamed(root.children, s) <= 1
    ensures var r := PivotalService.Clean(SubmitRootPath, "story", root, ExcludeNodesOnSubmit, true);
      r.Ok? && r.value.attributes == 0 &&
      (forall j :: 0 <= j < |r.value.children| ==> r.value.children[j].attributes == 0) &&
      (forall j :: 0 <= j < |r.value.children| ==> r.value.children[j].name != s)
  {
    PivotalService.CleanDropsListedName("story", root, ExcludeNodesOnSubmit, s);
  }
}
