/**
 * What the XML libraries hand to the analyzers, as values: the element tree
 * of an `XDocument` with the LINQ to XML lookups the analyzers use, and the
 * node stream an `XmlReader` yields (comments, processing instructions and
 * insignificant white space already skipped by its settings).
 */
module XmlModel {
  import opened Wrappers
  import opened Text

  // ---------------------------------------------------------------------
  // LINQ to XML
  // ---------------------------------------------------------------------

  /** An `XName`: a namespace URI (empty for none) and a local name, compared ordinally. */
  datatype XName = XName(ns: string, localName: string)

  datatype XAttribute = XAttribute(name: XName, value: string)

  /** The content of an element, in document order: text (or CDATA), or a child element. */
  datatype XNode = XText(text: string) | XChild(element: XElement)

  datatype XElement = XElement(name: XName, attributes: seq<XAttribute>, nodes: seq<XNode>)

  /** A name in no namespace, as a C# string converts to an `XName`. */
  function Local(localName: string): XName
  {
    XName("", localName)
  }

  /** `XName.ToString()`: "{namespace}local", or the local name alone in no namespace. */
  function NameText(n: XName): string
  {
    if n.ns == "" then n.localName else "{" + n.ns + "}" + n.localName
  }

  /** `e.Attribute(name)?.Value`. */
  function Attribute(e: XElement, name: XName): Option<string>
  {
    AttributeFrom(e.attributes, name)
  }

  function AttributeFrom(attributes: seq<XAttribute>, name: XName): Option<string>
    decreases |attributes|
  {
    if |attributes| == 0 then Option.None
    else if attributes[0].name == name then Some(attributes[0].value)
    else AttributeFrom(attributes[1..], name)
  }

  /** `k` is the position of the first attribute named `name`. */
  predicate FirstNamed(attributes: seq<XAttribute>, name: XName, k: int)
  {
    0 <= k < |attributes| && attributes[k].name == name
    && forall j :: 0 <= j < k ==> attributes[j].name != name
  }

  /** An attribute is found exactly when the element has one of that name, and its value is the first such one's. */
  lemma {:induction false} AttributeFound(attributes: seq<XAttribute>, name: XName)
    ensures var v := AttributeFrom(attributes, name);
      (v.Some? <==> exists k :: 0 <= k < |attributes| && attributes[k].name == name)
      && (v.Some? ==> exists k :: FirstNamed(attributes, name, k) && attributes[k].value == v.value)
    decreases |attributes|
  {
    if |attributes| > 0 && attributes[0].name != name {
      AttributeFound(attributes[1..], name);
      assert forall k :: 0 <= k < |attributes| - 1 ==> attributes[1..][k] == attributes[k + 1];
      var v := AttributeFrom(attributes, name);
      if v.Some? {
        var k :| FirstNamed(attributes[1..], name, k) && attributes[1..][k].value == v.value;
        assert attributes[k + 1] == attributes[1..][k];
        assert forall j :: 0 <= j < k + 1 ==> attributes[j].name != name by {
          forall j | 0 <= j < k + 1
            ensures attributes[j].name != name
          {
            if j > 0 {
              assert attributes[j] == attributes[1..][j - 1];
            }
          }
        }
        assert FirstNamed(attributes, name, k + 1);
      }
    }
  }

  /** `e.Elements(name)`: the child elements of that name, in document order. */
  function Elements(e: XElement, name: XName): (r: seq<XElement>)
    ensures forall c :: c in r ==> c.name == name
  {
    ElementsFrom(e.nodes, name)
  }

  function ElementsFrom(nodes: seq<XNode>, name: XName): (r: seq<XElement>)
    ensures forall c :: c in r ==> c.name == name
  {
    if |nodes| == 0 then []
    else
      var rest := ElementsFrom(nodes[1..], name);
      if nodes[0].XChild? && nodes[0].element.name == name then [nodes[0].element] + rest else rest
  }

  /** `e.Element(name)`: the first child element of that name. */
  function Element(e: XElement, name: XName): Option<XElement>
  {
    var all := Elements(e, name);
    if |all| > 0 then Some(all[0]) else Option.None
  }

  /** `e.Element(name)?.Value`. */
  function ElementValue(e: XElement, name: XName): Option<string>
  {
    var c := Element(e, name);
    if c.Some? then Some(Value(c.value)) else Option.None
  }

  /** `e.Element(name)?.Attribute(attribute)?.Value`. */
  function ElementAttribute(e: XElement, name: XName, attribute: XName): Option<string>
  {
    var c := Element(e, name);
    if c.Some? then Attribute(c.value, attribute) else Option.None
  }

  /** `XElement.Value`: the text of all descendant text nodes, in document order. */
  function Value(e: XElement): string
    decreases e, 1
  {
    ValueFrom(e, 0)
  }

  function ValueFrom(e: XElement, i: nat): string
    decreases e, 0, |e.nodes| - i
  {
    if i >= |e.nodes| then ""
    else
      var node := e.nodes[i];
      (match node
       case XText(t) => t
       case XChild(c) => assert c < node; Value(c))
      + ValueFrom(e, i + 1)
  }

  /** `e.Descendants(name)`: every element of that name below `e`, in document order. */
  function Descendants(e: XElement, name: XName): (r: seq<XElement>)
    ensures forall c :: c in r ==> c.name == name
    decreases e, 1
  {
    DescendantsFrom(e, 0, name)
  }

  function DescendantsFrom(e: XElement, i: nat, name: XName): (r: seq<XElement>)
    ensures forall c :: c in r ==> c.name == name
    decreases e, 0, |e.nodes| - i
  {
    if i >= |e.nodes| then []
    else
      var node := e.nodes[i];
      var here := if node.XChild? then
          var c := node.element;
          assert c < node;
          (if c.name == name then [c] else []) + Descendants(c, name)
        else [];
      here + DescendantsFrom(e, i + 1, name)
  }

  /** The child elements of `e` are among its descendants of their name. */
  lemma ChildIsDescendant(e: XElement, name: XName, c: XElement)
    requires c in Elements(e, name)
    ensures c in Descendants(e, name)
  {
    var i := ChildIndex(e.nodes, name, c);
    DescendantsHas(e, 0, i, name, c);
  }

  lemma ChildIndex(nodes: seq<XNode>, name: XName, c: XElement) returns (i: nat)
    requires c in ElementsFrom(nodes, name)
    ensures i < |nodes| && nodes[i] == XChild(c)
  {
    if nodes[0] == XChild(c) {
      i := 0;
    } else {
      var j := ChildIndex(nodes[1..], name, c);
      i := j + 1;
    }
  }

  lemma {:induction false} DescendantsHas(e: XElement, from: nat, i: nat, name: XName, c: XElement)
    requires from <= i < |e.nodes| && e.nodes[i] == XChild(c) && c.name == name
    ensures c in DescendantsFrom(e, from, name)
    decreases |e.nodes| - from
  {
    var rest := DescendantsFrom(e, from + 1, name);
    var node := e.nodes[from];
    if from < i {
      DescendantsHas(e, from + 1, i, name, c);
      var here := if node.XChild? then (if node.element.name == name then [node.element] else []) + Descendants(node.element, name) else [];
      assert DescendantsFrom(e, from, name) == here + rest;
    } else {
      assert DescendantsFrom(e, from, name) == ([c] + Descendants(c, name)) + rest;
    }
  }

  /** What `XDocument.Load` yields: the root element, or the message of the exception it raised. */
  datatype DocumentLoad = Loaded(root: Option<XElement>) | LoadFailed(message: string)

  // ---------------------------------------------------------------------
  // XmlReader
  // ---------------------------------------------------------------------

  /**
   * A node as `XmlReader.Read` stops on it: an element start (its qualified
   * `Name`, `LocalName`, `NamespaceURI` and `AttributeCount`), text, CDATA,
   * an end tag, or a node before the content such as the XML declaration.
   */
  datatype ReaderNode =
    | StartElement(qualifiedName: string, localName: string, namespaceUri: string, attributeCount: nat)
    | TextNode(value: string)
    | CDataNode(value: string)
    | EndElement
    | Prolog

  /** The exception a read raises: an `XmlException`, or any other. */
  datatype ReadFailure = XmlError(message: string) | OtherError(message: string)

  /**
   * A file as an `XmlReader` reads it: the nodes it yields, and the
   * exception the next read raises after them, if any (one that stops the
   * file from opening is a failure after no nodes).
   */
  datatype NodeStream = NodeStream(nodes: seq<ReaderNode>, failure: Option<ReadFailure>)

  /**
   * `reader.MoveToContent()`: whether the first content node is an element,
   * and which; a failure before it reads as `Failure`.
   */
  datatype Content = ContentElement(node: ReaderNode) | NotElement | Failure

  function MoveToContent(s: NodeStream): (c: Content)
    ensures c.ContentElement? ==> c.node.StartElement? && c.node in s.nodes
  {
    var k := FirstWhere(s.nodes, (n: ReaderNode) => !n.Prolog?);
    if k.Some? then
      if s.nodes[k.value].StartElement? then ContentElement(s.nodes[k.value]) else NotElement
    else if s.failure.Some? then Failure
    else NotElement
  }

  /** What one `Read` call does: moves to a node, returns false at the end, or raises. */
  datatype ReadOutcome = Node(node: ReaderNode) | EndOfStream | Raised(failure: ReadFailure)

  /** An `XmlReader` positioned in a node stream. */
  class NodeReader {
    const stream: NodeStream
    var position: nat

    predicate Valid()
      reads this
    {
      position <= |stream.nodes|
    }

    constructor(s: NodeStream)
      ensures Valid() && stream == s && position == 0
    {
      stream := s;
      position := 0;
    }

    /** `Read`: the next node, then false at the end of the stream, or the stream's failure there. */
    method Read() returns (outcome: ReadOutcome)
      requires Valid()
      modifies this
      ensures Valid()
      ensures old(position) < |stream.nodes| ==>
        position == old(position) + 1 && outcome == Node(stream.nodes[old(position)])
      ensures old(position) == |stream.nodes| ==> position == old(position)
      ensures old(position) == |stream.nodes| && stream.failure.Some? ==> outcome == Raised(stream.failure.value)
      ensures old(position) == |stream.nodes| && stream.failure.None? ==> outcome == EndOfStream
    {
      if position < |stream.nodes| {
        outcome := Node(stream.nodes[position]);
        position := position + 1;
      } else if stream.failure.Some? {
        outcome := Raised(stream.failure.value);
      } else {
        outcome := EndOfStream;
      }
    }
  }
}
