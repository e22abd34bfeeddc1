/** The part of an `xml.etree.ElementTree` tree the catalogue reads and writes. */
module ElementTree {
  import opened Wrappers

  /**
   * An element: its tag, its `text` (`None` when it has none) and its child
   * elements in document order. Attributes and tails are not used by the core.
   */
  datatype Element = Element(tag: string, text: Option<string>, children: seq<Element>)
}
