/** The XML documents the broker client exchanges, as element trees. Rendering
    a tree to text and parsing text back (the helper class XMLUtil) are not part
    of this model: they are supplied by the caller as an `XmlUtil` value. */
module Xml {
  import opened Lang

  /** An element: its tag, its text (dom4j reads an element without text as
      the empty string) and its child elements in document order. */
  datatype Element = Element(tag: string, text: string, children: seq<Element>)

  datatype Document = Document(root: Element)

  /** A freshly added element has no text and no children. */
  function NewElement(tag: string): Element {
    Element(tag, "", [])
  }

  /** An element whose text is set and that has no children. */
  function Leaf(tag: string, text: string): (e: Element)
    ensures e.tag == tag && e.text == text && e.children == []
  {
    NewElement(tag).(text := text)
  }

  /** The message of the IllegalArgumentException dom4j throws when asked to
      add null text. */
  const NullTextMessage: string := "Adding text to an XML document must not be null"

  const NullTextError: Exception :=
    Exception(External("java.lang.IllegalArgumentException"), Str(NullTextMessage))

  /** `setText(t)`: replaces the text of the element; a null `t` throws. */
  function SetText(e: Element, t: JString): (r: Result<Element, Exception>)
    ensures r.Err? <==> t == Null
    ensures r.Err? ==> r.error == NullTextError
    ensures r.Ok? ==> r.value.text == t.value && r.value.tag == e.tag && r.value.children == e.children
  {
    match t
    case Null => Err(NullTextError)
    case Str(v) => Ok(e.(text := v))
  }

  /** `addElement`: the element with one more child, after the others. */
  function AddChild(parent: Element, child: Element): (e: Element)
    ensures e.tag == parent.tag && e.text == parent.text
    ensures e.children == parent.children + [child]
  {
    parent.(children := parent.children + [child])
  }

  /** The index of the first element of `cs` with the given tag, or |cs|. */
  function FirstWithTag(cs: seq<Element>, tag: string): (k: nat)
    ensures k <= |cs|
    ensures k < |cs| ==> cs[k].tag == tag
    ensures forall j :: 0 <= j < k ==> cs[j].tag != tag
  {
    if cs == [] then 0
    else if cs[0].tag == tag then 0
    else 1 + FirstWithTag(cs[1..], tag)
  }

  /** `element(name)`: the first child with the given tag, if there is one. */
  function Child(e: Element, tag: string): (r: Option<Element>)
    ensures r.Some? <==> exists j :: 0 <= j < |e.children| && e.children[j].tag == tag
    ensures r.Some? ==> r.value.tag == tag && r.value in e.children
  {
    var k := FirstWithTag(e.children, tag);
    if k < |e.children| then Some(e.children[k]) else None
  }

  /** A child is found by its tag when no earlier child has that tag. */
  lemma ChildAt(e: Element, k: nat)
    requires k < |e.children|
    requires forall j :: 0 <= j < k ==> e.children[j].tag != e.children[k].tag
    ensures Child(e, e.children[k].tag) == Some(e.children[k])
  {
  }

  /** The text of the first child with the given tag, if there is one. */
  function ChildText(e: Element, tag: string): (r: Option<string>)
    ensures r.Some? <==> Child(e, tag).Some?
  {
    match Child(e, tag)
    case None => None
    case Some(c) => Some(c.text)
  }

  /** `XMLUtil.toXML(doc, "UTF-8")` and `XMLUtil.fromXML(text, "UTF-8")`;
      either may throw. */
  datatype XmlUtil = XmlUtil(
    toXml: Document -> Result<string, Exception>,
    fromXml: JString -> Result<Document, Exception>)
}
