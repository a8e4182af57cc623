/** Printing of element trees, and the parser of XML 1.0 section 3 that inverts it. */
module XmlTree {
  import opened Wrappers
  import opened Xml

  // ---------------------------------------------------------------- printing

  function PrintAttributes(attributes: seq<Attribute>): string {
    if attributes == [] then ""
    else " " + attributes[0].name + "=\"" + Escape(attributes[0].value) + "\"" + PrintAttributes(attributes[1..])
  }

  function Print(node: Node): string
    decreases node
  {
    match node
    case Text(value) => Escape(value)
    case Element(name, attributes, children) =>
      "<" + name + PrintAttributes(attributes) + ">" + PrintAll(children) + EndTag(name)
  }

  function EndTag(name: string): string { "</" + name + ">" }

  function PrintAll(nodes: seq<Node>): string
    decreases nodes
  {
    if nodes == [] then "" else Print(nodes[0]) + PrintAll(nodes[1..])
  }

  lemma {:induction false} PrintAllConcat(a: seq<Node>, b: seq<Node>)
    ensures PrintAll(a + b) == PrintAll(a) + PrintAll(b)
  {
    if a == [] {
      assert a + b == b;
    } else {
      assert (a + b)[1..] == a[1..] + b;
      PrintAllConcat(a[1..], b);
    }
  }

  // ---------------------------------------------------------------- parsing

  function IndexOf(s: string, c: char): (n: nat)
    ensures n <= |s| && c !in s[..n] && (n < |s| ==> s[n] == c)
  {
    if s == "" || s[0] == c then 0
    else
      var n := 1 + IndexOf(s[1..], c);
      assert s[..n] == [s[0]] + s[1..][..n - 1];
      n
  }

  lemma {:induction false} IndexOfFirst(a: string, c: char, b: string)
    requires c !in a && (b == "" || b[0] == c)
    ensures IndexOf(a + b, c) == |a|
  {
    if a == "" {
      assert a + b == b;
    } else {
      assert (a + b)[1..] == a[1..] + b;
      IndexOfFirst(a[1..], c, b);
    }
  }

  predicate IsNameChar(c: char) { c !in " \t\n\r<>/=\"'&" }

  predicate IsName(s: string) { s != "" && forall i :: 0 <= i < |s| ==> IsNameChar(s[i]) }

  function NameLength(s: string): (n: nat)
    ensures n <= |s|
  {
    if s == "" || !IsNameChar(s[0]) then 0 else 1 + NameLength(s[1..])
  }

  lemma {:induction false} NameLengthFirst(name: string, rest: string)
    requires forall i :: 0 <= i < |name| ==> IsNameChar(name[i])
    requires rest != "" && !IsNameChar(rest[0])
    ensures NameLength(name + rest) == |name|
  {
    if name == "" {
      assert name + rest == rest;
    } else {
      assert (name + rest)[1..] == name[1..] + rest;
      NameLengthFirst(name[1..], rest);
    }
  }

  /** The rest of `s` after a literal. */
  function After(literal: string, s: string): (r: Option<string>)
    ensures r.Some? <==> StartsWith(s, literal)
    ensures r.Some? ==> s == literal + r.value
  {
    if StartsWith(s, literal) then Some(s[|literal|..]) else None
  }

  lemma AfterInverts(literal: string, rest: string)
    ensures After(literal, literal + rest) == Some(rest)
  {
    assert (literal + rest)[..|literal|] == literal;
  }

  /** `name="value"` */
  function ParseAttribute(s: string): (r: Option<(Attribute, string)>)
    ensures r.Some? ==> |r.value.1| < |s|
  {
    var n := NameLength(s);
    var quoted :- After("=\"", s[n..]);
    var m := IndexOf(quoted, '"');
    var tail :- After("\"", quoted[m..]);
    var value :- Unescape(quoted[..m]);
    if n == 0 then None else Some((Attribute(s[..n], value), tail))
  }

  function ParseAttributes(s: string): (r: Option<(seq<Attribute>, string)>)
    ensures r.Some? ==> |r.value.1| <= |s|
    decreases |s|
  {
    if s == "" || s[0] != ' ' then Some(([], s))
    else
      var (attribute, after) :- ParseAttribute(s[1..]);
      var (rest, tail) :- ParseAttributes(after);
      Some(([attribute] + rest, tail))
  }

  function ParseElement(s: string): (r: Option<(Node, string)>)
    ensures r.Some? ==> r.value.0.Element? && |r.value.1| < |s|
    decreases |s|, 0
  {
    var tag :- After("<", s);
    var n := NameLength(tag);
    if n == 0 then None
    else
      var name := tag[..n];
      var (attributes, tagEnd) :- ParseAttributes(tag[n..]);
      if StartsWith(tagEnd, "/>") then Some((Element(name, attributes, []), tagEnd[2..]))
      else
        var inside :- After(">", tagEnd);
        var (children, closing) :- ParseContent(inside);
        var rest :- After(EndTag(name), closing);
        Some((Element(name, attributes, children), rest))
  }

  /** Elements and character data up to an end tag or the end of the input. */
  function ParseContent(s: string): (r: Option<(seq<Node>, string)>)
    ensures r.Some? ==> |r.value.1| <= |s|
    decreases |s|, 1
  {
    if s == "" || StartsWith(s, "</") then Some(([], s))
    else if s[0] == '<' then
      var (element, after) :- ParseElement(s);
      var (rest, tail) :- ParseContent(after);
      Some(([element] + rest, tail))
    else
      var n := IndexOf(s, '<');
      var value :- Unescape(s[..n]);
      var (rest, tail) :- ParseContent(s[n..]);
      Some(([Text(value)] + rest, tail))
  }

  // ---------------------------------------------------------------- the parser inverts the printer

  ghost predicate WellFormed(node: Node)
    decreases node
  {
    match node
    case Text(value) => value != ""
    case Element(name, attributes, children) =>
      && IsName(name)
      && (forall i :: 0 <= i < |attributes| ==> IsName(attributes[i].name))
      && Normal(children)
  }

  /** Content a parser can report: no empty and no adjacent character data. */
  ghost predicate Normal(nodes: seq<Node>)
    decreases nodes
  {
    nodes != [] ==>
      && WellFormed(nodes[0]) && Normal(nodes[1..])
      && (nodes[0].Text? && |nodes| > 1 ==> nodes[1].Element?)
  }

  /** `Print` with what follows it, grouped to the right as a parser meets it. */
  function AttributesOnto(attributes: seq<Attribute>, rest: string): string {
    if attributes == [] then rest
    else
      var tail := AttributesOnto(attributes[1..], rest);
      " " + (attributes[0].name + ("=\"" + (Escape(attributes[0].value) + ("\"" + tail))))
  }

  function Onto(node: Node, rest: string): string
    decreases node
  {
    match node
    case Text(value) => Escape(value) + rest
    case Element(name, attributes, children) =>
      "<" + (name + AttributesOnto(attributes, ">" + AllOnto(children, EndTag(name) + rest)))
  }

  function AllOnto(nodes: seq<Node>, rest: string): string
    decreases nodes
  {
    if nodes == [] then rest else Onto(nodes[0], AllOnto(nodes[1..], rest))
  }

  lemma Assoc(a: string, b: string, c: string)
    ensures a + b + c == a + (b + c)
  {
  }

  lemma Split(a: string, b: string)
    ensures (a + b)[..|a|] == a && (a + b)[|a|..] == b
  {
  }

  lemma {:induction false} AttributesOntoPrints(attributes: seq<Attribute>, rest: string)
    ensures AttributesOnto(attributes, rest) == PrintAttributes(attributes) + rest
  {
    if attributes == [] {
      assert "" + rest == rest;
    } else {
      AttributesOntoPrints(attributes[1..], rest);
      var name, value, tail := attributes[0].name, Escape(attributes[0].value), PrintAttributes(attributes[1..]);
      Assoc(" " + name + "=\"" + value + "\"", tail, rest);
      Assoc(" " + name + "=\"" + value, "\"", tail + rest);
      Assoc(" " + name + "=\"", value, "\"" + (tail + rest));
      Assoc(" " + name, "=\"", value + ("\"" + (tail + rest)));
      Assoc(" ", name, "=\"" + (value + ("\"" + (tail + rest))));
    }
  }

  lemma {:induction false} OntoPrints(node: Node, rest: string)
    ensures Onto(node, rest) == Print(node) + rest
    decreases node, 1
  {
    match node
    case Text(value) =>
    case Element(name, attributes, children) =>
      var a, k, e := PrintAttributes(attributes), PrintAll(children), EndTag(name);
      AllOntoPrints(children, e + rest);
      AttributesOntoPrints(attributes, ">" + (k + (e + rest)));
      Assoc("<" + name + a + ">" + k, e, rest);
      Assoc("<" + name + a + ">", k, e + rest);
      Assoc("<" + name + a, ">", k + (e + rest));
      Assoc("<" + name, a, ">" + (k + (e + rest)));
      Assoc("<", name, a + (">" + (k + (e + rest))));
  }

  lemma {:induction false} AllOntoPrints(nodes: seq<Node>, rest: string)
    ensures AllOnto(nodes, rest) == PrintAll(nodes) + rest
    decreases nodes, 0
  {
    if nodes == [] {
      assert "" + rest == rest;
    } else {
      AllOntoPrints(nodes[1..], rest);
      OntoPrints(nodes[0], PrintAll(nodes[1..]) + rest);
      Assoc(Print(nodes[0]), PrintAll(nodes[1..]), rest);
    }
  }

  lemma ParseAttributeInverts(name: string, value: string, tail: string)
    requires IsName(name)
    ensures ParseAttribute(name + ("=\"" + (Escape(value) + ("\"" + tail)))) == Some((Attribute(name, value), tail))
  {
    var quoted := Escape(value) + ("\"" + tail);
    Split(name, "=\"" + quoted);
    NameLengthFirst(name, "=\"" + quoted);
    AfterInverts("=\"", quoted);
    IndexOfFirst(Escape(value), '"', "\"" + tail);
    Split(Escape(value), "\"" + tail);
    AfterInverts("\"", tail);
    UnescapeInverts(value);
    hide Escape, Unescape, NameLength, IndexOf, After;
  }

  lemma {:induction false} ParseAttributesInverts(attributes: seq<Attribute>, rest: string)
    requires forall i :: 0 <= i < |attributes| ==> IsName(attributes[i].name)
    requires rest == "" || rest[0] != ' '
    ensures ParseAttributes(AttributesOnto(attributes, rest)) == Some((attributes, rest))
  {
    if attributes != [] {
      var name, value, tail := attributes[0].name, attributes[0].value, AttributesOnto(attributes[1..], rest);
      ParseAttributeInverts(name, value, tail);
      ParseAttributesInverts(attributes[1..], rest);
      var body := name + ("=\"" + (Escape(value) + ("\"" + tail)));
      assert AttributesOnto(attributes, rest) == " " + body;
      hide Escape, ParseAttribute, AttributesOnto, IsName;
      Split(" ", body);
      assert (" " + body)[0] == ' ';
      assert attributes[0] == Attribute(name, value);
      assert [attributes[0]] + attributes[1..] == attributes;
    }
  }

  lemma NameEnds(attributes: seq<Attribute>, rest: string)
    requires rest != "" && rest[0] == '>'
    ensures var r := AttributesOnto(attributes, rest); r != "" && !IsNameChar(r[0])
  {
  }

  lemma {:induction false} ParseElementOnto(node: Node, rest: string)
    requires node.Element? && WellFormed(node)
    ensures ParseElement(Onto(node, rest)) == Some((node, rest))
    decreases node, 1
  {
    var name, closing := node.name, EndTag(node.name) + rest;
    var inside := AllOnto(node.children, closing);
    var after := AttributesOnto(node.attributes, ">" + inside);
    AfterInverts("<", name + after);
    NameEnds(node.attributes, ">" + inside);
    NameLengthFirst(name, after);
    Split(name, after);
    ParseAttributesInverts(node.attributes, ">" + inside);
    AfterInverts(">", inside);
    assert StartsWith(closing, "</");
    ParseContentOnto(node.children, closing);
    AfterInverts(EndTag(name), rest);
    hide AttributesOnto, AllOnto, NameLength, ParseAttributes, ParseContent, After, EndTag, IsName;
  }

  lemma {:induction false} ParseContentOnto(nodes: seq<Node>, tail: string)
    requires Normal(nodes)
    requires tail == "" || StartsWith(tail, "</")
    ensures ParseContent(AllOnto(nodes, tail)) == Some((nodes, tail))
    decreases nodes, 0
  {
    if nodes != [] {
      var after := AllOnto(nodes[1..], tail);
      ParseContentOnto(nodes[1..], tail);
      assert [nodes[0]] + nodes[1..] == nodes;
      match nodes[0] {
        case Element(name, _, _) =>
          ParseElementOnto(nodes[0], after);
          ElementStarts(nodes[0], after);
          hide Onto, ParseElement;
        case Text(value) =>
          if nodes[1..] != [] {
            ElementStarts(nodes[1], AllOnto(nodes[1..][1..], tail));
          }
          IndexOfFirst(Escape(value), '<', after);
          Split(Escape(value), after);
          UnescapeInverts(value);
          hide Escape, Unescape, IndexOf, ParseElement;
      }
    }
  }

  lemma ElementStarts(node: Node, rest: string)
    requires node.Element? && IsName(node.name)
    ensures var s := Onto(node, rest); |s| > 1 && s[0] == '<' && s[1] != '/'
  {
    assert IsNameChar(node.name[0]);
  }

  // ---------------------------------------------------------------- main results

  /** Parsing the printed form of an element yields the element, whatever follows. */
  lemma ParseElementInverts(node: Node, rest: string)
    requires node.Element? && WellFormed(node)
    ensures ParseElement(Print(node) + rest) == Some((node, rest))
  {
    ParseElementOnto(node, rest);
    OntoPrints(node, rest);
  }
}
