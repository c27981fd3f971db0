/** The part of LINQ to XML the export code builds with: elements carrying
    attributes, child elements and text, and a document with its
    declaration. Serialisation is not modelled.

    The exported documents use a fixed vocabulary of element and attribute
    names, so names are enumerations; `TagText` and `AttributeText` give the
    name each one is written with.
 */
module Xml {
  import opened Wrappers

  /** The element names of the configuration document. */
  datatype Tag = Configuration | Device | Frequency | Power | Mode | Connection | Address | Port | Parameter

  /** The attribute names of the configuration document. */
  datatype AttributeName = NameAttribute | SourceAttribute | ProtocolAttribute | ValueAttribute

  function TagText(t: Tag): string {
    match t
    case Configuration => "Configuration"
    case Device => "Device"
    case Frequency => "Frequency"
    case Power => "Power"
    case Mode => "Mode"
    case Connection => "Connection"
    case Address => "Address"
    case Port => "Port"
    case Parameter => "Parameter"
  }

  function AttributeText(a: AttributeName): string {
    match a
    case NameAttribute => "name"
    case SourceAttribute => "source"
    case ProtocolAttribute => "protocol"
    case ValueAttribute => "value"
  }

  /** The tag written as `text`, if any. */
  function TagOf(text: string): (t: Option<Tag>)
  {
    if text == "Configuration" then Some(Configuration)
    else if text == "Device" then Some(Device)
    else if text == "Frequency" then Some(Frequency)
    else if text == "Power" then Some(Power)
    else if text == "Mode" then Some(Mode)
    else if text == "Connection" then Some(Connection)
    else if text == "Address" then Some(Address)
    else if text == "Port" then Some(Port)
    else if text == "Parameter" then Some(Parameter)
    else None
  }

  /** Reading a written tag name gives back the tag. */
  lemma TagRoundTrip(t: Tag)
    ensures TagOf(TagText(t)) == Some(t)
  {
  }

  /** Distinct tags are written with distinct names, so selecting by tag is
      selecting by written name. */
  lemma TagTextInjective(s: Tag, t: Tag)
    requires s != t
    ensures TagText(s) != TagText(t)
  {
    TagRoundTrip(s);
    TagRoundTrip(t);
  }

  /** The attribute written as `text`, if any. */
  function AttributeOf(text: string): (a: Option<AttributeName>)
  {
    if text == "name" then Some(NameAttribute)
    else if text == "source" then Some(SourceAttribute)
    else if text == "protocol" then Some(ProtocolAttribute)
    else if text == "value" then Some(ValueAttribute)
    else None
  }

  lemma AttributeRoundTrip(a: AttributeName)
    ensures AttributeOf(AttributeText(a)) == Some(a)
  {
  }

  datatype Attribute = Attribute(name: AttributeName, value: string)

  /** An element: its attributes in order, then either child elements or
      text content. */
  datatype Element = Element(name: Tag, attributes: seq<Attribute>, children: seq<Element>, text: string)

  /** The `<?xml version encoding standalone?>` declaration. */
  datatype Declaration = Declaration(version: string, encoding: string, standalone: string)

  datatype Document = Document(declaration: Declaration, root: Element)

  /** `new XElement(name, content)` for string content. */
  function Leaf(name: Tag, text: string): Element {
    Element(name, [], [], text)
  }

  /** An attribute that is present only when there is a value for it. */
  function OptionalAttribute(name: AttributeName, value: Option<string>): (r: seq<Attribute>)
    ensures |r| <= 1 && (r == [] <==> value.None?)
    ensures AttributeValue(r, name) == value
  {
    if value.None? then [] else [Attribute(name, value.value)]
  }

  /** A text child that is present only when there is content for it. */
  function OptionalLeaf(name: Tag, text: Option<string>): (r: seq<Element>)
    ensures |r| <= 1 && (r == [] <==> text.None?)
    ensures AllNamed(r, name)
    ensures text.Some? ==> r[0].text == text.value
  {
    if text.None? then [] else [Leaf(name, text.value)]
  }

  /** Every element of `es` carries the name `name`. */
  predicate AllNamed(es: seq<Element>, name: Tag) {
    forall k :: 0 <= k < |es| ==> es[k].name == name
  }

  /** The elements of `es` named `name`, in order (`Elements(name)`). */
  function Named(es: seq<Element>, name: Tag): (r: seq<Element>)
    ensures |r| <= |es| && AllNamed(r, name)
  {
    if |es| == 0 then []
    else if es[0].name == name then [es[0]] + Named(es[1..], name)
    else Named(es[1..], name)
  }

  /** An element named `name` is selected, and everything selected is in
      `es`. */
  lemma {:induction false} NamedMembers(es: seq<Element>, name: Tag)
    ensures forall k :: 0 <= k < |es| && es[k].name == name ==> es[k] in Named(es, name)
    ensures forall e <- Named(es, name) :: e in es
  {
    if |es| > 0 {
      NamedMembers(es[1..], name);
      assert forall k :: 0 < k < |es| ==> es[k] == es[1..][k - 1];
    }
  }

  /** Selecting by name distributes over concatenation. */
  lemma {:induction false} NamedAppend(a: seq<Element>, b: seq<Element>, name: Tag)
    ensures Named(a + b, name) == Named(a, name) + Named(b, name)
  {
    if |a| == 0 {
      assert a + b == b;
    } else {
      assert (a + b)[0] == a[0];
      assert (a + b)[1..] == a[1..] + b;
      NamedAppend(a[1..], b, name);
    }
  }

  /** Selecting a name from elements that all carry another name gives
      nothing. */
  lemma {:induction false} NamedOther(es: seq<Element>, other: Tag, name: Tag)
    requires AllNamed(es, other) && other != name
    ensures Named(es, name) == []
  {
    if |es| > 0 {
      assert AllNamed(es[1..], other) by {
        assert forall k :: 0 <= k < |es| - 1 ==> es[1..][k] == es[k + 1];
      }
      NamedOther(es[1..], other, name);
    }
  }

  /** Selecting the name all elements carry gives them all. */
  lemma {:induction false} NamedAll(es: seq<Element>, name: Tag)
    requires AllNamed(es, name)
    ensures Named(es, name) == es
  {
    if |es| > 0 {
      assert AllNamed(es[1..], name) by {
        assert forall k :: 0 <= k < |es| - 1 ==> es[1..][k] == es[k + 1];
      }
      NamedAll(es[1..], name);
    }
  }

  /** Nothing is selected exactly when no element carries the name. */
  lemma {:induction false} NamedEmpty(es: seq<Element>, name: Tag)
    ensures Named(es, name) == [] <==> forall k :: 0 <= k < |es| ==> es[k].name != name
  {
    if |es| > 0 {
      NamedEmpty(es[1..], name);
      assert forall k :: 0 < k < |es| ==> es[k] == es[1..][k - 1];
    }
  }

  /** The text of the first child named `name`, if any (`Element(name)?.Value`). */
  function ChildText(e: Element, name: Tag): (r: Option<string>)
    ensures r.Some? <==> exists k :: 0 <= k < |e.children| && e.children[k].name == name
  {
    var found := Named(e.children, name);
    NamedEmpty(e.children, name);
    if |found| == 0 then None else Some(found[0].text)
  }

  /** A child written by `OptionalLeaf` reads back as the text it was
      written with, or as nothing when it was left out. */
  lemma LeafText(e: Element, name: Tag, text: Option<string>)
    requires Named(e.children, name) == OptionalLeaf(name, text)
    ensures ChildText(e, name) == text
  {
  }

  /** The value of the first attribute named `name`, if any. */
  function AttributeValue(attributes: seq<Attribute>, name: AttributeName): (r: Option<string>)
    ensures r.Some? <==> exists k :: 0 <= k < |attributes| && attributes[k].name == name
  {
    if |attributes| == 0 then None
    else if attributes[0].name == name then Some(attributes[0].value)
    else
      var r := AttributeValue(attributes[1..], name);
      assert forall k :: 0 < k < |attributes| ==> attributes[k] == attributes[1..][k - 1];
      r
  }
}
