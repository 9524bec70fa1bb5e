// Element trees, with the names that the network and pool documents use.
module Xml {
  import opened Options

  datatype Node = Elem(e: Element) | Text(text: string)

  datatype Tag =
    | NetworkTag | NameTag | ForwardTag | BridgeTag | IpTag | DhcpTag | RangeTag
    | PoolTag | SourceTag | HostTag | DirTag | FormatTag | TargetTag | PathTag
    | OtherTag(text: string)

  datatype Attribute =
    | Address | Prefix | Netmask | Start | End | ModeOf | NameOf | TypeOf | PathAt
    | OtherAttribute(text: string)

  type Attributes = map<Attribute, string>

  datatype Element = Element(name: Tag, attributes: Attributes, children: seq<Node>)

  function Leaf(name: Tag, attributes: Attributes): Element { Element(name, attributes, []) }

  function TextElement(name: Tag, text: string): Element { Element(name, map[], [Text(text)]) }

  function Pushed(parent: Element, child: Element): Element {
    parent.(children := parent.children + [Elem(child)])
  }

  predicate IsElement(n: Node, name: Tag) { n.Elem? && n.e.name == name }

  // The first element of this name.
  function Child(nodes: seq<Node>, name: Tag): Option<Element> {
    if nodes == [] then None
    else if IsElement(nodes[0], name) then Some(nodes[0].e)
    else Child(nodes[1..], name)
  }

  function FirstText(nodes: seq<Node>): Option<string> {
    if nodes == [] then None else if nodes[0].Text? then Some(nodes[0].text) else FirstText(nodes[1..])
  }

  function ChildText(e: Element, name: Tag): Option<string> {
    match Child(e.children, name)
    case None => None
    case Some(c) => FirstText(c.children)
  }

  function ChildAttribute(e: Element, name: Tag, a: Attribute): Option<string> {
    match Child(e.children, name)
    case None => None
    case Some(c) => if a in c.attributes then Some(c.attributes[a]) else None
  }

  lemma ChildOfMore(x: Node, rest: seq<Node>, name: Tag)
    ensures Child([x] + rest, name) == if IsElement(x, name) then Some(x.e) else Child(rest, name)
  {
    assert ([x] + rest)[1..] == rest;
  }

  // The child of up to three nodes, in their order.
  lemma ChildInOrder(nodes: seq<Node>, name: Tag)
    requires 1 <= |nodes| <= 3
    ensures Child(nodes, name) ==
              if IsElement(nodes[0], name) then Some(nodes[0].e)
              else if |nodes| > 1 && IsElement(nodes[1], name) then Some(nodes[1].e)
              else if |nodes| > 2 && IsElement(nodes[2], name) then Some(nodes[2].e)
              else None
  {
    hide IsElement;
    assert Child([], name) == None;
    var rest := nodes[1..];
    assert nodes == [nodes[0]] + rest;
    ChildOfMore(nodes[0], rest, name);
    if |nodes| > 1 {
      var last := nodes[2..];
      assert rest == [nodes[1]] + last;
      ChildOfMore(nodes[1], last, name);
      if |nodes| > 2 {
        assert last == [nodes[2]] + [];
        ChildOfMore(nodes[2], [], name);
      }
    }
  }

  // Node `k` is the element `e`, and it is the first one of its name.
  ghost predicate IsFirst(nodes: seq<Node>, e: Element, k: int) {
    0 <= k < |nodes| && nodes[k] == Elem(e) && forall j :: 0 <= j < k ==> !IsElement(nodes[j], e.name)
  }

  // The first element of this name is `e`.
  ghost predicate FirstIs(nodes: seq<Node>, name: Tag, e: Element) {
    e.name == name && exists k :: IsFirst(nodes, e, k)
  }

  lemma FirstOfMore(nodes: seq<Node>, name: Tag, e: Element)
    requires nodes != []
    ensures FirstIs(nodes, name, e) <==>
              if IsElement(nodes[0], name) then nodes[0].e == e else FirstIs(nodes[1..], name, e)
  {
    var rest := nodes[1..];
    if FirstIs(nodes, name, e) {
      var k :| IsFirst(nodes, e, k);
      if k > 0 {
        assert forall j :: 0 <= j < k - 1 ==> rest[j] == nodes[j + 1];
        assert IsFirst(rest, e, k - 1);
      }
    }
    if IsElement(nodes[0], name) && nodes[0].e == e { assert IsFirst(nodes, e, 0); }
    if k :| !IsElement(nodes[0], name) && e.name == name && IsFirst(rest, e, k) {
      assert forall j :: 0 < j < k + 1 ==> nodes[j] == rest[j - 1];
      assert IsFirst(nodes, e, k + 1);
    }
  }

  lemma {:induction false} ChildIff(nodes: seq<Node>, name: Tag, e: Element)
    ensures Child(nodes, name) == Some(e) <==> FirstIs(nodes, name, e)
  {
    if nodes == [] {
    } else {
      FirstOfMore(nodes, name, e);
      hide FirstIs;
      ChildIff(nodes[1..], name, e);
    }
  }

  // The first text is `text`.
  ghost predicate IsFirstText(nodes: seq<Node>, text: string, k: int) {
    0 <= k < |nodes| && nodes[k] == Text(text) && forall j :: 0 <= j < k ==> nodes[j].Elem?
  }

  ghost predicate FirstTextIs(nodes: seq<Node>, text: string) { exists k :: IsFirstText(nodes, text, k) }

  lemma {:induction false} FirstTextIff(nodes: seq<Node>, text: string)
    ensures FirstText(nodes) == Some(text) <==> FirstTextIs(nodes, text)
  {
    if nodes == [] {
    } else {
      var rest := nodes[1..];
      FirstTextIff(rest, text);
      if k :| IsFirstText(nodes, text, k) {
        if k > 0 {
          assert forall j :: 0 <= j < k - 1 ==> rest[j] == nodes[j + 1];
          assert IsFirstText(rest, text, k - 1);
        }
      }
      if k :| nodes[0].Elem? && IsFirstText(rest, text, k) {
        assert forall j :: 0 < j < k + 1 ==> nodes[j] == rest[j - 1];
        assert IsFirstText(nodes, text, k + 1);
      }
      if nodes[0].Text? { assert IsFirstText(nodes, nodes[0].text, 0); }
    }
  }

  // The first child of this name has the text, or the attribute.
  ghost predicate HasText(e: Element, name: Tag, text: string) {
    exists c :: FirstIs(e.children, name, c) && FirstTextIs(c.children, text)
  }

  ghost predicate HasAttribute(e: Element, name: Tag, a: Attribute, value: string) {
    exists c :: FirstIs(e.children, name, c) && a in c.attributes && c.attributes[a] == value
  }

  lemma AllChildren(nodes: seq<Node>, name: Tag)
    ensures forall c :: FirstIs(nodes, name, c) <==> Child(nodes, name) == Some(c)
  {
    forall c ensures FirstIs(nodes, name, c) <==> Child(nodes, name) == Some(c) { ChildIff(nodes, name, c); }
  }

  lemma TextIff(e: Element, name: Tag, text: string)
    ensures ChildText(e, name) == Some(text) <==> HasText(e, name, text)
  {
    hide FirstIs, FirstTextIs, Child, FirstText;
    AllChildren(e.children, name);
    if Child(e.children, name).Some? { FirstTextIff(Child(e.children, name).value.children, text); }
  }

  lemma AttributeIff(e: Element, name: Tag, a: Attribute, value: string)
    ensures ChildAttribute(e, name, a) == Some(value) <==> HasAttribute(e, name, a, value)
  {
    hide FirstIs, Child;
    AllChildren(e.children, name);
    if Child(e.children, name).Some? { assert FirstIs(e.children, name, Child(e.children, name).value); }
  }
}
