/** `PivotalTask`: a task of a story. Its `CreationDateString`/`CreationDate`
    pair follows the story's timestamp rule; adding a task sanitizes the
    document under the story's root path, which a task document does not
    have, while updating and deleting use the task's own. */
module Tasks {
  import opened Base
  import opened PivotalConverters
  import PivotalService

  /** The children dropped from a task before it is sent. */
  const ExcludeNodesOnSubmit: seq<string> := ["id", "created_at", "position"]

  /** The root path `AddTask` passes to the sanitizer. */
  const AddRootPath: string := "//story/"

  /** The root path `UpdateTask` and `DeleteTask` pass to the sanitizer. */
  const UpdateRootPath: string := "//task/"

  class PivotalTask {
    var creationDateString: Option<string>
    var creationDate: DateTime
    var description: Option<string>

    constructor ()
      ensures creationDateString == None && creationDate == Zero && description == None
    {
      creationDateString := None;
      creationDate := Zero;
      description := None;
    }

    /** The `CreationDate` setter: the value and its wire rendering. */
    method SetCreationDate(d: DateTime)
      modifies this
      ensures creationDate == d && creationDateString == Some(ConvertToPivotalDateTime(d))
      ensures description == old(description)
    {
      creationDate := d;
      creationDateString := Some(PivotalConverters.Format(d) + " UTC");
    }

    /** The `CreationDateString` setter: stored, then parsed without its
        last four characters into the `CreationDate` setter; short or
        unparsable text gives `new DateTime()`, a null text throws after
        being stored. */
    method SetCreationDateString(value: Option<string>) returns (r: Outcome)
      modifies this
      ensures value.None? ==>
        r == Threw(NullReference) && creationDateString == None && creationDate == old(creationDate)
      ensures value.Some? ==>
        r == Completed && creationDate == WireToDateTime(value.value) &&
        creationDateString == Some(ConvertToPivotalDateTime(creationDate))
      ensures description == old(description)
    {
      creationDateString := value;
      if value.None? {
        return Threw(NullReference);
      }
      var v := value.value;
      if |v| > 4 {
        var parsed := ParseExact(v[..|v| - 4]);
        if parsed.Some? {
          SetCreationDate(parsed.value);
        } else {
          SetCreationDate(Zero);
        }
      } else {
        SetCreationDate(Zero);
      }
      return Completed;
    }
  }

  /** The address `FetchTasks` requests, before the filter: `String.Format`
      writes null arguments as empty strings. */
  function TasksQuery(projectId: Option<string>, storyId: Option<string>, token: Option<string>): string
  {
    PivotalService.BaseUrl + "/projects/" + OrEmpty(projectId) + "/story/" + OrEmpty(storyId) +
    "/tasks?token=" + OrEmpty(token)
  }

  /** The request address of `FetchTasks`: `&` and the filter are appended
      only when the filter is neither null nor empty. */
  method FetchTasksUrl(projectId: Option<string>, storyId: Option<string>, token: Option<string>,
                       filter: Option<string>) returns (url: string)
    ensures filter.None? || filter.value == "" ==> url == TasksQuery(projectId, storyId, token)
    ensures filter.Some? && filter.value != "" ==>
      url == TasksQuery(projectId, storyId, token) + "&" + filter.value
  {
    url := TasksQuery(projectId, storyId, token);
    if filter.Some? && filter.value != "" {
      url := url + "&" + filter.value;
    }
  }

  /** The sanitizing step of `AddTask`: the task exclusions under the
      story's root path. */
  method SanitizeForAdd(xml: PivotalService.Document) returns (r: Outcome)
    modifies xml
    ensures match PivotalService.Clean(AddRootPath, xml.rootName,
                                       PivotalService.Root(old(xml.rootAttributes), old(xml.children)),
                                       ExcludeNodesOnSubmit, true)
      case Ok(root) => r == Completed && xml.rootAttributes == root.attributes && xml.children == root.children
      case Err(e) => r == Threw(e) && xml.rootAttributes == old(xml.rootAttributes) &&
                     xml.children == old(xml.children)
  {
    r := PivotalService.CleanXmlForSubmission(xml, AddRootPath, ExcludeNodesOnSubmit, true);
  }

  /** The sanitizing step of `UpdateTask` and `DeleteTask`. */
  method SanitizeForUpdate(xml: PivotalService.Document) returns (r: Outcome)
    modifies xml
    ensures match PivotalService.Clean(UpdateRootPath, xml.rootName,
                                       PivotalService.Root(old(xml.rootAttributes), old(xml.children)),
                                       ExcludeNodesOnSubmit, true)
      case Ok(root) => r == Completed && xml.rootAttributes == root.attributes && xml.children == root.children
      case Err(e) => r == Threw(e) && xml.rootAttributes == old(xml.rootAttributes) &&
                     xml.children == old(xml.children)
  {
    r := PivotalService.CleanXmlForSubmission(xml, UpdateRootPath, ExcludeNodesOnSubmit, true);
  }

  // ---------------------------------------------------------------------
  // Properties
  // ---------------------------------------------------------------------

  /** `AddTask` always fails on a task document: the story root path finds
      no root in it, and the attribute scan then goes through the missing
      root, so the document is left as it was. */
  lemma {:induction false} AddTaskAlwaysThrows(root: PivotalService.Root)
    ensures PivotalService.Clean(AddRootPath, "task", root, ExcludeNodesOnSubmit, true) == Err(NullReference)
  {
    assert AddRootPath[2..6] == "stor";
    assert !PivotalService.ResolvesRoot(AddRootPath, "task");
    PivotalService.CleanWithoutRoot(AddRootPath, "task", root, ExcludeNodesOnSubmit, true);
  }

  /** Update and delete find the task root: attributes are all dropped and
      each excluded name that occurs at most once is gone. */
  lemma {:induction false} UpdateTaskDropsReadOnlyFields(root: PivotalService.Root, s: string)
    requires s in ExcludeNodesOnSubmit && PivotalService.CountNamed(root.children, s) <= 1
    ensures var r := PivotalService.Clean(UpdateRootPath, "task", root, ExcludeNodesOnSubmit, true);
      r.Ok? && r.value.attributes == 0 &&
      (forall j :: 0 <= j < |r.value.children| ==> r.value.children[j].attributes == 0) &&
      (forall j :: 0 <= j < |r.value.children| ==> r.value.children[j].name != s)
  {
    PivotalService.CleanDropsListedName("task", root, ExcludeNodesOnSubmit, s);
  }
}
