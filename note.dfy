/** `PivotalNote`: a comment on a story. Its `NotedAtDateString` setter
    goes through the shared converter and falls back to `new DateTime()`
    when the converter throws; `AddNote` sanitizes under a root path
    without its closing `/`, so the exclusion paths name no child. */
module Notes {
  import opened Base
  import opened PivotalConverters
  import PivotalService

  /** The children `AddNote` means to drop before sending. */
  const ExcludeNodesOnSubmit: seq<string> := ["id", "noted_at"]

  /** The root path `AddNote` passes to the sanitizer. */
  const AddRootPath: string := "//note"

  class PivotalNote {
    var notedAtDateString: Option<string>
    var notedAtDate: DateTime
    var noteText: Option<string>
    var author: Option<string>

    /** `new PivotalNote()`. */
    constructor ()
      ensures notedAtDateString == None && notedAtDate == Zero
      ensures noteText == None && author == None
    {
      notedAtDateString := None;
      notedAtDate := Zero;
      noteText := None;
      author := None;
    }

    /** `new PivotalNote(noteText)`. */
    constructor WithText(noteText: Option<string>)
      ensures notedAtDateString == None && notedAtDate == Zero
      ensures this.noteText == noteText && author == None
    {
      notedAtDateString := None;
      notedAtDate := Zero;
      this.noteText := noteText;
      author := None;
    }

    /** The `NotedAtDate` setter: the value and its wire rendering. */
    method SetNotedAtDate(d: DateTime)
      modifies this
      ensures notedAtDate == d && notedAtDateString == Some(ConvertToPivotalDateTime(d))
      ensures noteText == old(noteText) && author == old(author)
    {
      notedAtDate := d;
      notedAtDateString := Some(ConvertToPivotalDateTime(d));
    }

    /** The `NotedAtDateString` setter: a text longer than four characters
        goes to the converter, whose exceptions are caught and give
        `new DateTime()`; a shorter one gives `new DateTime()` directly; a
        null one throws after being stored. */
    method SetNotedAtDateString(value: Option<string>) returns (r: Outcome)
      modifies this
      ensures value.None? ==>
        r == Threw(NullReference) && notedAtDateString == None && notedAtDate == old(notedAtDate)
      ensures value.Some? ==>
        r == Completed && notedAtDate == WireToDateTime(value.value) &&
        notedAtDateString == Some(ConvertToPivotalDateTime(notedAtDate))
      ensures noteText == old(noteText) && author == old(author)
    {
      notedAtDateString := value;
      if value.None? {
        return Threw(NullReference);
      }
      var v := value.value;
      if |v| > 4 {
        ConverterMatchesInlineParse(v);
        var converted := ConvertFromPivotalDateTime(value);
        if converted.Ok? {
          SetNotedAtDate(converted.value);
        } else {
          SetNotedAtDate(Zero);
        }
      } else {
        SetNotedAtDate(Zero);
      }
      return Completed;
    }
  }

  /** The sanitizing step of `AddNote`. */
  method SanitizeForAdd(xml: PivotalService.Document) returns (r: Outcome)
    modifies xml
    ensures match PivotalService.Clean(AddRootPath, xml.rootName,
                                       PivotalService.Root(old(xml.rootAttributes), old(xml.children)),
                                       ExcludeNodesOnSubmit, true)
      case Ok(root) => r == Completed && xml.rootAttributes == root.attributes && xml.children == root.children
      case Err(e) => r == Threw(e) && xml.rootAttributes == old(xml.rootAttributes) &&
                     xml.children == old(xml.children)
  {
    r := PivotalService.CleanXmlForSubmission(xml, AddRootPath, ExcludeNodesOnSubmit, true);
  }

  // ---------------------------------------------------------------------
  // Properties
  // ---------------------------------------------------------------------

  /** `//note` + `id` and `//note` + `noted_at` run the element name into
      the child's: neither names any child of the note. */
  lemma {:induction false} ExclusionPathsSelectNothing(c: PivotalService.Node)
    ensures forall n :: 0 <= n < |ExcludeNodesOnSubmit| ==>
      !PivotalService.Selects(AddRootPath + ExcludeNodesOnSubmit[n], "note", c)
  {
    forall n | 0 <= n < |ExcludeNodesOnSubmit|
      ensures !PivotalService.Selects(AddRootPath + ExcludeNodesOnSubmit[n], "note", c)
    {
      var path := AddRootPath + ExcludeNodesOnSubmit[n];
      var selected := "//note/" + c.name;
      assert path[6] != '/';
      if |selected| > 6 {
        assert selected[6] == '/';
      }
    }
  }

  /** `AddNote` removes only attributed children: the root is found, the
      listed names are all kept, and the result is the attribute scan of
      the original children with the root's attributes cleared. */
  lemma {:induction false} AddNoteKeepsListedChildren(root: PivotalService.Root)
    ensures PivotalService.Clean(AddRootPath, "note", root, ExcludeNodesOnSubmit, true) ==
            Ok(PivotalService.Root(0, PivotalService.NoAttr(root.children)))
  {
    forall n, j | 0 <= n < |ExcludeNodesOnSubmit| && 0 <= j < |root.children|
      ensures !PivotalService.Selects(AddRootPath + ExcludeNodesOnSubmit[n], "note", root.children[j])
    {
      ExclusionPathsSelectNothing(root.children[j]);
    }
    PivotalService.ExcludeAllNoMatch(AddRootPath, "note", root.children, ExcludeNodesOnSubmit);
  }
}
