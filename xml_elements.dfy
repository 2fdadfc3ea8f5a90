/** Parsed XML elements as the XML importer sees them, with ElementTree's
    `find` and `findall` for a plain tag name and the command's
    `get_xml_text` helper. */
module XmlElements {
  import opened Outcomes
  import opened Text
  import opened Sequences

  /** An element: its tag, its text (`None` when it has none) and its child
      elements in document order. */
  datatype Element = Element(tag: string, text: Option<string>, children: seq<Element>)

  /** The index of the first child of `e` tagged `tag`, `|e.children|` when there is none. */
  function FirstIndex(children: seq<Element>, tag: string): (k: nat)
    ensures k <= |children|
    ensures forall i | 0 <= i < k :: children[i].tag != tag
    ensures k < |children| ==> children[k].tag == tag
    decreases |children|
  {
    if children == [] then 0
    else if children[0].tag == tag then 0
    else 1 + FirstIndex(children[1..], tag)
  }

  /** `e.find(tag)`: the first child with that tag, `None` when there is none. */
  function Find(e: Element, tag: string): (r: Option<Element>)
    ensures r.None? <==> forall i | 0 <= i < |e.children| :: e.children[i].tag != tag
    ensures r.Some? ==> exists k | 0 <= k < |e.children| ::
      (e.children[k] == r.value && r.value.tag == tag && forall i | 0 <= i < k :: e.children[i].tag != tag)
  {
    var k := FirstIndex(e.children, tag);
    if k < |e.children| then Some(e.children[k]) else None
  }

  /** `e.findall(tag)`: the children with that tag, in document order. */
  function FindAll(children: seq<Element>, tag: string): (r: seq<Element>)
    ensures Subsequence(r, children)
    ensures forall x :: multiset(r)[x] == if x.tag == tag then multiset(children)[x] else 0
  {
    if children == [] then []
    else
      var rest := FindAll(children[1..], tag);
      assert children == [children[0]] + children[1..];
      if children[0].tag == tag then
        assert ([children[0]] + rest)[1..] == rest;
        [children[0]] + rest
      else rest
  }

  /** `get_xml_text(element, tag, default)`: the stripped text of the first
      child with that tag, or `default` when there is no such child or its
      text is missing or empty. */
  function GetXmlText(e: Element, tag: string, default: string): (r: string)
    ensures Find(e, tag).None? ==> r == default
    ensures Find(e, tag).Some? ==>
      var t := Find(e, tag).value.text;
      r == (if t.Some? && t.value != "" then Strip(t.value) else default)
  {
    match Find(e, tag)
    case Some(child) =>
      if child.text.Some? && child.text.value != "" then Strip(child.text.value) else default
    case None => default
  }

  /** The record elements of a document: the `DATA_RECORD` children of the
      root, or its `record` children when it has no `DATA_RECORD` child. */
  function RecordElements(root: Element): (r: seq<Element>)
    ensures (exists i | 0 <= i < |root.children| :: root.children[i].tag == "DATA_RECORD") ==>
      r == FindAll(root.children, "DATA_RECORD")
    ensures (forall i | 0 <= i < |root.children| :: root.children[i].tag != "DATA_RECORD") ==>
      r == FindAll(root.children, "record")
  {
    var records := FindAll(root.children, "DATA_RECORD");
    if records != [] then records
    else
      assert forall i | 0 <= i < |root.children| :: root.children[i].tag != "DATA_RECORD" by {
        forall i | 0 <= i < |root.children| ensures root.children[i].tag != "DATA_RECORD" {
          var x := root.children[i];
          assert x in multiset(root.children);
          assert multiset(records)[x] == 0;
        }
      }
      FindAll(root.children, "record")
  }
}
