/**
 * An XML document as a plain element tree, with the two DOM queries the map
 * parser uses: attribute lookup and `getElementsByTagName`.
 */
module Xml {

  /**
   * One element: its tag, its attributes, its child elements in document
   * order, and its text content (`getTextContent()`).
   */
  datatype Element = Element(
    tag: string,
    attributes: map<string, string>,
    children: seq<Element>,
    textContent: string)

  /** `element.getAttribute(name)`: the value, or the empty string when absent. */
  function GetAttribute(e: Element, name: string): string
  {
    if name in e.attributes then e.attributes[name] else ""
  }

  /** `element.hasAttribute(name)`. */
  predicate HasAttribute(e: Element, name: string)
  {
    name in e.attributes
  }

  /** Every element of `forest` and of its subtrees with tag `tag`, in document (pre-)order. */
  function TaggedIn(forest: seq<Element>, tag: string): (r: seq<Element>)
    ensures forall i :: 0 <= i < |r| ==> r[i].tag == tag
    decreases forest
  {
    if |forest| == 0 then []
    else
      (if forest[0].tag == tag then [forest[0]] else [])
      + TaggedIn(forest[0].children, tag)
      + TaggedIn(forest[1..], tag)
  }

  /** `element.getElementsByTagName(tag)`: the matching proper descendants. */
  function ElementsByTagName(e: Element, tag: string): seq<Element>
  {
    TaggedIn(e.children, tag)
  }

  /** `document.getElementsByTagName(tag)`: the document element itself may match. */
  function DocumentElementsByTagName(root: Element, tag: string): seq<Element>
  {
    TaggedIn([root], tag)
  }
}
