/** `PivotalService.CleanXmlForSubmission`: before an entity is sent, drop
    the read-only child elements of its serialized root and, on request,
    every child that carries an attribute (the `xsi:nil` markers of null
    fields) together with the root's own attributes.

    The document is a root element with a sequence of children. XPath is
    reduced to the two shapes the callers use: a root path `P` selects the
    root when it is `//name` or `//name/`, and `P + s` selects the first
    child `c` for which `P + s` is `//name/` followed by `c`'s name. */
module PivotalService {
  import opened Base

  /** `PivotalService.BaseUrl`: the root of every request address. */
  const BaseUrl: string := "http://www.pivotaltracker.com/services/v3"

  /** The root address holds no `&`, so it never splits a query pair. */
  lemma {:induction false} BaseUrlWithoutAmpersand()
    ensures '&' !in BaseUrl
  {
    assert forall k | 0 <= k < |BaseUrl| :: BaseUrl[k] != '&';
  }

  /** A child element of the root: its name, how many attributes it
      carries, and its content, which the sanitizer never looks at. */
  datatype Node = Node(name: string, attributes: nat, payload: string)

  /** What the sanitizer can change: the root's attribute count and its
      children. */
  datatype Root = Root(attributes: nat, children: seq<Node>)

  /** `xml.SelectSingleNode(rootXpath)` finds the root element. */
  predicate ResolvesRoot(path: string, rootName: string)
  {
    path == "//" + rootName || path == "//" + rootName + "/"
  }

  /** The path names the child `c` of the root. */
  predicate Selects(path: string, rootName: string, c: Node)
  {
    path == "//" + rootName + "/" + c.name
  }

  /** `xml.SelectSingleNode(path)` for a child: the position of the first
      child the path names. */
  function FirstSelected(path: string, rootName: string, children: seq<Node>): (r: Option<nat>)
    ensures r.Some? ==> (r.value < |children| && Selects(path, rootName, children[r.value]) &&
      forall j :: 0 <= j < r.value ==> !Selects(path, rootName, children[j]))
    ensures r.None? ==> forall j :: 0 <= j < |children| ==> !Selects(path, rootName, children[j])
  {
    if children == [] then None
    else if Selects(path, rootName, children[0]) then Some(0)
    else match FirstSelected(path, rootName, children[1..])
      case Some(j) => Some(j + 1)
      case None => None
  }

  function RemoveAt(s: seq<Node>, j: nat): seq<Node>
    requires j < |s|
  {
    s[..j] + s[j + 1..]
  }

  /** The exclusion step: for each name in turn, the first child the root
      path plus that name selects is removed. A match while the root path
      found no root throws, since the removal goes through the null root. */
  function ExcludeAll(path: string, rootName: string, children: seq<Node>, names: seq<string>)
    : Result<seq<Node>>
  {
    if names == [] then Ok(children)
    else
      match FirstSelected(path + names[0], rootName, children)
      case None => ExcludeAll(path, rootName, children, names[1..])
      case Some(j) =>
        if !ResolvesRoot(path, rootName) then Err(NullReference)
        else ExcludeAll(path, rootName, RemoveAt(children, j), names[1..])
  }

  /** The children without an attribute, in their order. */
  function NoAttr(s: seq<Node>): (r: seq<Node>)
    ensures |r| <= |s|
  {
    if s == [] then []
    else NoAttr(s[..|s| - 1]) + (if s[|s| - 1].attributes == 0 then [s[|s| - 1]] else [])
  }

  /** The whole sanitizer on the root's state: the exclusion step, then,
      when `removeIfHasAttributes` is set, the attribute scan and the
      clearing of the root's attributes (which throw when there is no
      root). */
  function Clean(path: string, rootName: string, root: Root, names: seq<string>,
                 removeIfHasAttributes: bool): Result<Root>
  {
    match ExcludeAll(path, rootName, root.children, names)
    case Err(e) => Err(e)
    case Ok(cs) =>
      if !removeIfHasAttributes then Ok(Root(root.attributes, cs))
      else if !ResolvesRoot(path, rootName) then Err(NullReference)
      else Ok(Root(0, NoAttr(cs)))
  }

  /** A serialized entity: `XmlDocument` reduced to its document element. */
  class Document {
    const rootName: string
    var rootAttributes: nat
    var children: seq<Node>

    constructor (rootName: string, rootAttributes: nat, children: seq<Node>)
      ensures this.rootName == rootName && this.rootAttributes == rootAttributes
      ensures this.children == children
    {
      this.rootName := rootName;
      this.rootAttributes := rootAttributes;
      this.children := children;
    }

    /** `xml.SelectSingleNode(path)` for a path below the root. */
    function SelectSingleNode(path: string): Option<nat>
      reads this
    {
      FirstSelected(path, rootName, children)
    }

    /** `rootNode.ChildNodes[i]`: null past the end of the live list. */
    function ChildAt(i: int): (r: Option<Node>)
      reads this
      ensures r.Some? <==> 0 <= i < |children|
    {
      if 0 <= i < |children| then Some(children[i]) else None
    }

    /** `rootNode.RemoveChild(node)` for the child at position `j`. */
    method RemoveChildAt(j: nat)
      requires j < |children|
      modifies this
      ensures children == RemoveAt(old(children), j)
      ensures rootAttributes == old(rootAttributes)
    {
      children := children[..j] + children[j + 1..];
    }

    /** `rootNode.Attributes.RemoveAll()`. */
    method RemoveAllRootAttributes()
      modifies this
      ensures rootAttributes == 0 && children == old(children)
    {
      rootAttributes := 0;
    }
  }

  /** `CleanXmlForSubmission(xml, rootXpath, ignoredNodes, removeIfHasAttributes)`:
      the document afterwards is what `Clean` computes, or, when that
      throws, the document is left as it was. The serialized text it
      returns (`OuterXml`) is the document itself here. */
  method CleanXmlForSubmission(xml: Document, rootXpath: string, ignoredNodes: seq<string>,
                               removeIfHasAttributes: bool) returns (r: Outcome)
    modifies xml
    ensures match Clean(rootXpath, xml.rootName, Root(old(xml.rootAttributes), old(xml.children)),
                        ignoredNodes, removeIfHasAttributes)
            case Ok(root) =>
              r == Completed && xml.rootAttributes == root.attributes && xml.children == root.children
            case Err(e) =>
              r == Threw(e) && xml.rootAttributes == old(xml.rootAttributes) &&
              xml.children == old(xml.children)
  {
    var rootFound := ResolvesRoot(rootXpath, xml.rootName);
    ghost var excluded := ExcludeAll(rootXpath, xml.rootName, xml.children, ignoredNodes);
    var n := 0;
    while n < |ignoredNodes|
      invariant 0 <= n <= |ignoredNodes|
      invariant xml.rootAttributes == old(xml.rootAttributes)
      invariant ExcludeAll(rootXpath, xml.rootName, xml.children, ignoredNodes[n..]) == excluded
      invariant !rootFound ==> xml.children == old(xml.children)
    {
      assert ignoredNodes[n..][1..] == ignoredNodes[n + 1..];
      var toRemove := xml.SelectSingleNode(rootXpath + ignoredNodes[n]);
      if toRemove.Some? {
        if !rootFound {
          return Threw(NullReference);
        }
        xml.RemoveChildAt(toRemove.value);
      }
      n := n + 1;
    }
    assert ignoredNodes[n..] == [];
    if removeIfHasAttributes {
      if !rootFound {
        return Threw(NullReference);
      }
      RemoveAttributedChildren(xml);
      xml.RemoveAllRootAttributes();
    }
    return Completed;
  }

  /** Removing the first element after a prefix. */
  lemma {:induction false} RemoveAtJoin(a: seq<Node>, b: seq<Node>)
    requires b != []
    ensures RemoveAt(a + b, |a|) == a + b[1..]
  {
    assert (a + b)[..|a|] == a;
    assert (a + b)[|a| + 1..] == b[1..];
  }

  /** The attribute scan of `CleanXmlForSubmission`: a `for` loop over the
      live child list, bounded by the count taken before the loop, that
      steps back after each removal and stops once the index runs past the
      live list. It removes exactly the children that carry an attribute. */
  method RemoveAttributedChildren(xml: Document)
    modifies xml
    ensures xml.children == NoAttr(old(xml.children))
    ensures xml.rootAttributes == old(xml.rootAttributes)
  {
    ghost var orig := xml.children;
    var nodeCount := |xml.children|;
    var i: int := 0;
    ghost var k: nat := 0;
    while i < nodeCount
      invariant k <= |orig| == nodeCount
      invariant xml.children == Scanned(orig, k)
      invariant i == |NoAttr(orig[..k])|
      invariant xml.rootAttributes == old(xml.rootAttributes)
      decreases nodeCount - i + |xml.children|
    {
      ScanStep(orig, k, xml.children, i);
      var item := xml.ChildAt(i);
      if item.Some? && item.value.attributes > 0 {
        xml.RemoveChildAt(i);
        i := i - 1;
      }
      if i >= |xml.children| {
        break;
      }
      i := i + 1;
      k := k + 1;
    }
    ScanDone(orig, k, xml.children, i);
  }

  /** The live child list after the scan has looked at the first `k`
      original children. */
  ghost function Scanned(orig: seq<Node>, k: nat): seq<Node>
    requires k <= |orig|
  {
    NoAttr(orig[..k]) + orig[k..]
  }

  /** One pass of the scan: the child at the scan index is the next
      original child; removing it, or keeping it attribute-free, moves
      the scan on by one original child. */
  lemma {:induction false} ScanStep(orig: seq<Node>, k: nat, live: seq<Node>, i: int)
    requires k <= |orig| && live == Scanned(orig, k) && i == |NoAttr(orig[..k])|
    ensures |live| == i + |orig| - k
    ensures k < |orig| ==> live[i] == orig[k]
    ensures k < |orig| && orig[k].attributes > 0 ==>
      RemoveAt(live, i) == Scanned(orig, k + 1) && |NoAttr(orig[..k + 1])| == i
    ensures k < |orig| && orig[k].attributes == 0 ==>
      live == Scanned(orig, k + 1) && |NoAttr(orig[..k + 1])| == i + 1
  {
    if k < |orig| {
      assert orig[..k + 1][..k] == orig[..k];
      assert orig[k..][1..] == orig[k + 1..];
      if orig[k].attributes > 0 {
        assert NoAttr(orig[..k + 1]) == NoAttr(orig[..k]);
        RemoveAtJoin(NoAttr(orig[..k]), orig[k..]);
      } else {
        assert NoAttr(orig[..k + 1]) == NoAttr(orig[..k]) + [orig[k]];
        assert orig[k..] == [orig[k]] + orig[k + 1..];
      }
    }
  }

  /** The scan stops with every original child looked at. */
  lemma {:induction false} ScanDone(orig: seq<Node>, k: nat, live: seq<Node>, i: int)
    requires k <= |orig| && live == Scanned(orig, k) && i == |NoAttr(orig[..k])|
    requires i >= |orig| || i >= |live|
    ensures live == NoAttr(orig)
  {
    assert k == |orig|;
    assert orig[..k] == orig;
  }

  // ---------------------------------------------------------------------
  // Properties of the attribute scan
  // ---------------------------------------------------------------------

  /** The scan keeps a child exactly as often as the input has it, when it
      carries no attribute, and never otherwise. */
  lemma {:induction false} NoAttrCounts(s: seq<Node>, c: Node)
    ensures multiset(NoAttr(s))[c] == if c.attributes == 0 then multiset(s)[c] else 0
  {
    if s != [] {
      var init := s[..|s| - 1];
      assert s == init + [s[|s| - 1]];
      NoAttrCounts(init, c);
    }
  }

  /** No surviving child carries an attribute. */
  lemma {:induction false} NoAttrRemovesAttributed(s: seq<Node>)
    ensures forall j :: 0 <= j < |NoAttr(s)| ==> NoAttr(s)[j].attributes == 0
  {
    forall j | 0 <= j < |NoAttr(s)|
      ensures NoAttr(s)[j].attributes == 0
    {
      var c := NoAttr(s)[j];
      assert c in multiset(NoAttr(s));
      NoAttrCounts(s, c);
    }
  }

  /** The scan works piecewise, so survivors keep their relative order. */
  lemma {:induction false} NoAttrConcat(a: seq<Node>, b: seq<Node>)
    ensures NoAttr(a + b) == NoAttr(a) + NoAttr(b)
    decreases |b|
  {
    if b != [] {
      var binit := b[..|b| - 1];
      assert (a + b)[..|a + b| - 1] == a + binit;
      assert (a + b)[|a + b| - 1] == b[|b| - 1];
      NoAttrConcat(a, binit);
    } else {
      assert a + b == a;
    }
  }

  /** Children that carry no attribute are all kept. */
  lemma {:induction false} NoAttrKeepsClean(s: seq<Node>)
    requires forall j :: 0 <= j < |s| ==> s[j].attributes == 0
    ensures NoAttr(s) == s
  {
    if s != [] {
      var init := s[..|s| - 1];
      NoAttrKeepsClean(init);
      assert s == init + [s[|s| - 1]];
    }
  }

  // ---------------------------------------------------------------------
  // Properties of the exclusion step
  // ---------------------------------------------------------------------

  /** The exclusion step only removes, at most one child per name. */
  lemma {:induction false} ExcludeAllShrinks(path: string, rootName: string, children: seq<Node>,
                                             names: seq<string>)
    requires ExcludeAll(path, rootName, children, names).Ok?
    ensures var cs := ExcludeAll(path, rootName, children, names).value;
      multiset(cs) <= multiset(children) && |children| - |names| <= |cs| <= |children|
    decreases |names|
  {
    if names != [] {
      match FirstSelected(path + names[0], rootName, children)
      case None =>
        ExcludeAllShrinks(path, rootName, children, names[1..]);
      case Some(j) =>
        var rest := RemoveAt(children, j);
        assert children == children[..j] + [children[j]] + children[j + 1..];
        assert multiset(rest) <= multiset(children);
        ExcludeAllShrinks(path, rootName, rest, names[1..]);
    }
  }

  /** A name that selects no child changes nothing; when no name selects a
      child the step is the identity, with or without a root. */
  lemma {:induction false} ExcludeAllNoMatch(path: string, rootName: string, children: seq<Node>,
                                             names: seq<string>)
    requires forall n, j :: 0 <= n < |names| && 0 <= j < |children| ==>
      !Selects(path + names[n], rootName, children[j])
    ensures ExcludeAll(path, rootName, children, names) == Ok(children)
    decreases |names|
  {
    if names != [] {
      assert FirstSelected(path + names[0], rootName, children).None?;
      assert forall n :: 1 <= n < |names| ==> names[1..][n - 1] == names[n];
      ExcludeAllNoMatch(path, rootName, children, names[1..]);
    }
  }

  /** Once the root is found the exclusion step cannot throw. */
  lemma {:induction false} ExcludeAllWithRoot(path: string, rootName: string, children: seq<Node>,
                                              names: seq<string>)
    requires ResolvesRoot(path, rootName)
    ensures ExcludeAll(path, rootName, children, names).Ok?
    decreases |names|
  {
    if names != [] {
      match FirstSelected(path + names[0], rootName, children)
      case None => ExcludeAllWithRoot(path, rootName, children, names[1..]);
      case Some(j) => ExcludeAllWithRoot(path, rootName, RemoveAt(children, j), names[1..]);
    }
  }

  /** Under `//name/` the path plus `s` names exactly the children called `s`. */
  lemma {:induction false} SlashPathSelects(rootName: string, s: string, c: Node)
    ensures Selects("//" + rootName + "/" + s, rootName, c) <==> c.name == s
  {
    var p := "//" + rootName + "/";
    if p + s == p + c.name {
      assert s == (p + s)[|p|..];
      assert c.name == (p + c.name)[|p|..];
    }
  }

  /** How many children carry the name `s`. */
  function CountNamed(children: seq<Node>, s: string): (n: nat)
    ensures n <= |children|
  {
    if children == [] then 0
    else (if children[0].name == s then 1 else 0) + CountNamed(children[1..], s)
  }

  lemma {:induction false} CountNamedZero(children: seq<Node>, s: string)
    ensures CountNamed(children, s) == 0 <==> forall j :: 0 <= j < |children| ==> children[j].name != s
  {
    if children != [] {
      CountNamedZero(children[1..], s);
      assert forall j :: 1 <= j < |children| ==> children[j] == children[1..][j - 1];
    }
  }

  lemma {:induction false} CountNamedRemoveAt(children: seq<Node>, j: nat, s: string)
    requires j < |children|
    ensures CountNamed(RemoveAt(children, j), s) ==
      CountNamed(children, s) - (if children[j].name == s then 1 else 0)
  {
    if j > 0 {
      CountNamedRemoveAt(children[1..], j - 1, s);
      assert RemoveAt(children, j) == [children[0]] + RemoveAt(children[1..], j - 1);
    } else {
      assert RemoveAt(children, 0) == children[1..];
    }
  }

  /** Removal never adds a child of a name. */
  lemma {:induction false} ExcludeAllCountNamed(rootName: string, children: seq<Node>,
                                                names: seq<string>, s: string)
    ensures var path := "//" + rootName + "/";
      ExcludeAll(path, rootName, children, names).Ok? &&
      CountNamed(ExcludeAll(path, rootName, children, names).value, s) <= CountNamed(children, s)
    decreases |names|
  {
    var path := "//" + rootName + "/";
    ExcludeAllWithRoot(path, rootName, children, names);
    if names != [] {
      match FirstSelected(path + names[0], rootName, children)
      case None => ExcludeAllCountNamed(rootName, children, names[1..], s);
      case Some(j) =>
        CountNamedRemoveAt(children, j, s);
        ExcludeAllCountNamed(rootName, RemoveAt(children, j), names[1..], s);
    }
  }

  /** Under `//name/`, a listed name that occurs at most once among the
      children is gone afterwards. */
  lemma {:induction false} ExcludeAllRemovesUnique(rootName: string, children: seq<Node>,
                                                   names: seq<string>, s: string)
    requires s in names && CountNamed(children, s) <= 1
    ensures var path := "//" + rootName + "/";
      ExcludeAll(path, rootName, children, names).Ok? &&
      var cs := ExcludeAll(path, rootName, children, names).value;
      forall j :: 0 <= j < |cs| ==> cs[j].name != s
    decreases |names|
  {
    var path := "//" + rootName + "/";
    ExcludeAllWithRoot(path, rootName, children, names);
    var first := FirstSelected(path + names[0], rootName, children);
    var next := if first.Some? then RemoveAt(children, first.value) else children;
    assert ExcludeAll(path, rootName, children, names) == ExcludeAll(path, rootName, next, names[1..]);
    if names[0] == s {
      assert CountNamed(next, s) == 0 by {
        if first.Some? {
          SlashPathSelects(rootName, s, children[first.value]);
          CountNamedRemoveAt(children, first.value, s);
        } else {
          forall j | 0 <= j < |children| ensures children[j].name != s {
            SlashPathSelects(rootName, s, children[j]);
          }
          CountNamedZero(children, s);
        }
      }
      ExcludeAllCountNamed(rootName, next, names[1..], s);
      CountNamedZero(ExcludeAll(path, rootName, next, names[1..]).value, s);
    } else {
      if first.Some? { CountNamedRemoveAt(children, first.value, s); }
      ExcludeAllRemovesUnique(rootName, next, names[1..], s);
    }
  }

  // ---------------------------------------------------------------------
  // Properties of the whole sanitizer
  // ---------------------------------------------------------------------

  /** With the flag off only the exclusion step runs; the root keeps its
      attributes. */
  lemma {:induction false} CleanWithoutFlag(path: string, rootName: string, root: Root, names: seq<string>)
    ensures var e := ExcludeAll(path, rootName, root.children, names);
      Clean(path, rootName, root, names, false) ==
        if e.Ok? then Ok(Root(root.attributes, e.value)) else Err(e.error)
  {
  }

  /** With the flag on and the root found, the call succeeds, the root has
      no attributes left, and neither has any surviving child. */
  lemma {:induction false} CleanWithFlag(path: string, rootName: string, root: Root, names: seq<string>)
    requires ResolvesRoot(path, rootName)
    ensures var r := Clean(path, rootName, root, names, true);
      r.Ok? && r.value.attributes == 0 &&
      r.value.children == NoAttr(ExcludeAll(path, rootName, root.children, names).value) &&
      forall j :: 0 <= j < |r.value.children| ==> r.value.children[j].attributes == 0
  {
    ExcludeAllWithRoot(path, rootName, root.children, names);
    NoAttrRemovesAttributed(ExcludeAll(path, rootName, root.children, names).value);
  }

  /** Under `//name/` with the scan on, the call succeeds, nothing left
      carries an attribute, and a listed name that occurred at most once
      among the children is gone. */
  lemma {:induction false} CleanDropsListedName(rootName: string, root: Root, names: seq<string>, s: string)
    requires s in names && CountNamed(root.children, s) <= 1
    ensures var r := Clean("//" + rootName + "/", rootName, root, names, true);
      r.Ok? && r.value.attributes == 0 &&
      (forall j :: 0 <= j < |r.value.children| ==> r.value.children[j].attributes == 0) &&
      (forall j :: 0 <= j < |r.value.children| ==> r.value.children[j].name != s)
  {
    var path := "//" + rootName + "/";
    CleanWithFlag(path, rootName, root, names);
    ExcludeAllRemovesUnique(rootName, root.children, names, s);
    var cs := ExcludeAll(path, rootName, root.children, names).value;
    forall j | 0 <= j < |NoAttr(cs)| ensures NoAttr(cs)[j].name != s {
      var c := NoAttr(cs)[j];
      assert c in multiset(NoAttr(cs));
      NoAttrCounts(cs, c);
      assert c in multiset(cs);
    }
  }

  /** When the root path finds nothing, the call throws exactly when the
      scan is requested or some listed name selects a child. */
  lemma {:induction false} CleanWithoutRoot(path: string, rootName: string, root: Root,
                                            names: seq<string>, flag: bool)
    requires !ResolvesRoot(path, rootName)
    ensures Clean(path, rootName, root, names, flag).Err? <==>
      flag || exists n, j :: 0 <= n < |names| && 0 <= j < |root.children| &&
                             Selects(path + names[n], rootName, root.children[j])
    ensures Clean(path, rootName, root, names, flag).Err? ==>
      Clean(path, rootName, root, names, flag) == Err(NullReference)
    ensures Clean(path, rootName, root, names, flag).Ok? ==>
      Clean(path, rootName, root, names, flag) == Ok(root)
  {
    ExcludeAllWithoutRoot(path, rootName, root.children, names);
  }

  lemma {:induction false} ExcludeAllWithoutRoot(path: string, rootName: string,
                                                 children: seq<Node>, names: seq<string>)
    requires !ResolvesRoot(path, rootName)
    ensures ExcludeAll(path, rootName, children, names).Err? <==>
      exists n, j :: 0 <= n < |names| && 0 <= j < |children| &&
                     Selects(path + names[n], rootName, children[j])
    ensures ExcludeAll(path, rootName, children, names) == Ok(children) ||
      ExcludeAll(path, rootName, children, names) == Err(NullReference)
    decreases |names|
  {
    if names != [] {
      ExcludeAllWithoutRoot(path, rootName, children, names[1..]);
      var first := FirstSelected(path + names[0], rootName, children);
      if first.None? {
        if exists n, j :: 0 <= n < |names| && 0 <= j < |children| &&
                          Selects(path + names[n], rootName, children[j]) {
          var n, j :| 0 <= n < |names| && 0 <= j < |children| &&
                      Selects(path + names[n], rootName, children[j]);
          assert n > 0;
          assert names[1..][n - 1] == names[n];
        }
      } else {
        assert Selects(path + names[0], rootName, children[first.value]);
      }
    }
  }
}
