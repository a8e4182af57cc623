/**
  The envelope as XML: read by the element parser of XML 1.0, section 3, its text is one
  well-nested element with the attributes, entries and pack that the schema names.
 */
module EnvelopeXml {
  import opened Wrappers
  import opened Bytes
  import opened Xml
  import opened XmlTree
  import opened XmlWriter
  import opened F0401Document
  import opened F0401InvoiceTree
  import opened F0401Xml
  import opened NormalizedInvoices
  import opened InvoiceLines
  import opened Envelope
  import opened EnvelopeWire
  import Pack
  import LineEnds
  import F0401Printer
  import Decimal
  import Utf8

  // ---------------------------------------------------------------- the tree, spelled out

  function Content(text: string): seq<Node> { if text == "" then [] else [Text(text)] }

  /** A party or routing entry, with the white space between its children. */
  function PrincipalNode(tag: string, idTag: string, p: Principal): Node {
    Element(tag, [], [Text("\n    "), Element(idTag, [], Content(p.identifier))] + DescriptionNodes(p.description))
  }

  function DescriptionNodes(description: Option<string>): seq<Node> {
    match description
    case None => [Text("\n  ")]
    case Some(text) => [Text("\n    "), Element("Description", [], Content(text)), Text("\n  ")]
  }

  function PackNode(count: nat, messageType: string, payloads: seq<Node>): Node {
    Element("InvoicePack",
            [Attribute("count", Decimal.Render(count)), Attribute("messageType", messageType),
             Attribute("version", "v41")],
            payloads)
  }

  function EnvelopeAttributes(): seq<Attribute> {
    [Attribute("xmlns", "urn:GEINV:InvoiceEnvelope:4.1"),
     Attribute("xmlns:xsi", "http://www.w3.org/2001/XMLSchema-instance"),
     Attribute("xsi:schemaLocation", "urn:GEINV:InvoiceEnvelope:4.1 InvoiceEnvelope.xsd")]
  }

  function EnvelopeNode(r: Routing, count: nat, messageType: string, payloads: seq<Node>): Node {
    Element("InvoiceEnvelope", EnvelopeAttributes(),
            [Text("\n  "), PrincipalNode("From", "PartyId", r.from),
             Text("\n  "), PrincipalNode("FromVAC", "RoutingId", r.fromVac),
             Text("\n  "), PrincipalNode("To", "PartyId", r.to),
             Text("\n  "), PrincipalNode("ToVAC", "RoutingId", r.toVac),
             Text("\n  "), PackNode(count, messageType, payloads), Text("\n")])
  }

  // ---------------------------------------------------------------- reading piece by piece

  /** Character data in front of content that begins with markup. */
  lemma TextFirst(text: string, value: string, s: string, nodes: seq<Node>, tail: string)
    requires text != "" && '<' !in text && Unescape(text) == Some(value) && s != "" && s[0] == '<'
    requires ParseContent(s) == Some((nodes, tail))
    ensures ParseContent(text + s) == Some(([Text(value)] + nodes, tail))
  {
    hide Unescape, IndexOf, ParseElement;
    IndexOfFirst(text, '<', s);
    Split(text, s);
    assert (text + s)[0] == text[0];
  }

  lemma ElementFirst(t: string, e: Node, s: string, nodes: seq<Node>, tail: string)
    requires |t| >= 2 && t[0] == '<' && t[1] != '/' && ParseElement(t) == Some((e, s))
    requires ParseContent(s) == Some((nodes, tail))
    ensures ParseContent(t) == Some(([e] + nodes, tail))
  {
    hide ParseElement;
    assert !StartsWith(t, "</");
  }

  /** The text of an element in front of `s`, from its attributes and the text of its content. */
  function Tagged(name: string, attributes: seq<Attribute>, content: string): string {
    "<" + (name + AttributesOnto(attributes, ">" + content))
  }

  lemma TaggedReads(name: string, attributes: seq<Attribute>, content: string, nodes: seq<Node>, s: string)
    requires IsName(name) && forall i :: 0 <= i < |attributes| ==> IsName(attributes[i].name)
    requires ParseContent(content) == Some((nodes, EndTag(name) + s))
    ensures var t := Tagged(name, attributes, content);
            |t| >= 2 && t[0] == '<' && t[1] != '/' && ParseElement(t) == Some((Element(name, attributes, nodes), s))
  {
    hide AttributesOnto, NameLength, ParseAttributes, ParseContent, EndTag;
    var after := AttributesOnto(attributes, ">" + content);
    assert IsNameChar(name[0]);
    hide IsName, IsNameChar;
    AfterInverts("<", name + after);
    assert (">" + content)[0] == '>';
    NameEnds(attributes, ">" + content);
    NameOf(name, after);
    ParseAttributesInverts(attributes, ">" + content);
    AfterInverts(">", content);
    AfterInverts(EndTag(name), s);
    hide After;
    assert !StartsWith(">" + content, "/>");
  }

  lemma NameOf(name: string, after: string)
    requires IsName(name) && after != "" && !IsNameChar(after[0])
    ensures NameLength(name + after) == |name| && (name + after)[..|name|] == name && (name + after)[|name|..] == after
  {
    NameLengthFirst(name, after);
  }

  lemma EndTagReads(name: string, s: string)
    ensures ParseContent(EndTag(name) + s) == Some(([], EndTag(name) + s))
    ensures EndTag(name) + s != "" && (EndTag(name) + s)[0] == '<'
  {
    assert StartsWith(EndTag(name) + s, "</");
  }

  /** An element that holds only text. */
  lemma LeafReads(name: string, text: string, s: string)
    requires IsName(name)
    ensures var t := Tagged(name, [], EscapeText(text) + (EndTag(name) + s));
            |t| >= 2 && t[0] == '<' && t[1] != '/' && ParseElement(t) == Some((Element(name, [], Content(text)), s))
  {
    hide ParseContent, ParseElement, EscapeText, Unescape, EndTag, Tagged, IsName;
    EndTagReads(name, s);
    UnescapeInvertsText(text);
    if text != "" {
      TextFirst(EscapeText(text), text, EndTag(name) + s, [], EndTag(name) + s);
      assert [Text(text)] + [] == [Text(text)];
    } else {
      assert EscapeText(text) + (EndTag(name) + s) == EndTag(name) + s;
    }
    TaggedReads(name, [], EscapeText(text) + (EndTag(name) + s), Content(text), s);
  }

  /** White space, an element, and the rest. */
  lemma SpacedReads(space: string, t: string, e: Node, s: string, nodes: seq<Node>, tail: string)
    requires space != "" && (forall c :: c in space ==> c == ' ' || c == '\n')
    requires |t| >= 2 && t[0] == '<' && t[1] != '/' && ParseElement(t) == Some((e, s))
    requires ParseContent(s) == Some((nodes, tail))
    ensures ParseContent(space + t) == Some(([Text(space), e] + nodes, tail))
  {
    hide ParseContent, ParseElement, Unescape;
    ElementFirst(t, e, s, nodes, tail);
    SpaceIsPlain(space);
    TextFirst(space, space, t, [e] + nodes, tail);
    assert [Text(space)] + ([e] + nodes) == [Text(space), e] + nodes;
  }

  lemma {:induction false} SpaceIsPlain(space: string)
    requires forall c :: c in space ==> c == ' ' || c == '\n'
    ensures Unescape(space) == Some(space)
  {
    if space != "" {
      assert space[0] in space && forall c :: c in space[1..] ==> c in space;
      SpaceIsPlain(space[1..]);
      assert [space[0]] + space[1..] == space;
    }
  }

  lemma SpaceBeforeEnd(space: string, name: string, s: string)
    requires space != "" && (forall c :: c in space ==> c == ' ' || c == '\n')
    ensures ParseContent(space + (EndTag(name) + s)) == Some(([Text(space)], EndTag(name) + s))
  {
    hide ParseContent, Unescape, EndTag;
    EndTagReads(name, s);
    SpaceIsPlain(space);
    TextFirst(space, space, EndTag(name) + s, [], EndTag(name) + s);
    assert [Text(space)] + [] == [Text(space)];
  }

  // ---------------------------------------------------------------- parties and routing entries

  lemma DescriptionReads(description: Option<string>, tag: string, rest: string)
    ensures ParseContent("\n" + DescriptionOnto(description, ClosePrincipal(tag) + rest)) ==
            Some((DescriptionNodes(description), EndTag(tag) + ("\n" + rest)))
  {
    hide ParseContent, ParseElement, EscapeText;
    var end := EndTag(tag) + ("\n" + rest);
    assert "\n" + (ClosePrincipal(tag) + rest) == "\n  " + end;
    SpaceBeforeEnd("\n  ", tag, "\n" + rest);
    if description.Some? {
      var text := description.value;
      DescriptionIsName();
      LeafReads("Description", text, "\n  " + end);
      var t := Tagged("Description", [], EscapeText(text) + (EndTag("Description") + ("\n  " + end)));
      DescriptionText(text, tag, rest);
      SpacedReads("\n    ", t, Element("Description", [], Content(text)), "\n  " + end, [Text("\n  ")], end);
      assert [Text("\n    "), Element("Description", [], Content(text))] + [Text("\n  ")]
          == DescriptionNodes(description);
    }
  }

  lemma DescriptionText(text: string, tag: string, rest: string)
    ensures "\n" + DescriptionOnto(Some(text), ClosePrincipal(tag) + rest) ==
            "\n    " + Tagged("Description", [],
                               EscapeText(text) + (EndTag("Description") + ("\n  " + (EndTag(tag) + ("\n" + rest)))))
  {
    hide EscapeText;
    var inner := EscapeText(text) + ("</Description>\n" + (ClosePrincipal(tag) + rest));
    assert "</Description>\n" + (ClosePrincipal(tag) + rest)
        == EndTag("Description") + ("\n  " + (EndTag(tag) + ("\n" + rest)));
    assert "\n" + ("    <Description>" + inner) == "\n    " + ("<" + ("Description" + (">" + inner)));
  }

  lemma DescriptionIsName()
    ensures IsName("Description")
  {
    assert IsWord("Description");
    WordIsName("Description");
  }

  lemma PrincipalText(tag: string, idTag: string, p: Principal, rest: string)
    ensures var after := "\n" + DescriptionOnto(p.description, ClosePrincipal(tag) + rest);
            "\n" + PrincipalOnto(tag, idTag, p, rest) ==
            "\n  " + Tagged(tag, [], "\n    " + Tagged(idTag, [], EscapeText(p.identifier) + (EndTag(idTag) + after)))
  {
    hide EscapeText, DescriptionOnto, ClosePrincipal;
    var d := DescriptionOnto(p.description, ClosePrincipal(tag) + rest);
    var id := EscapeText(p.identifier);
    assert CloseId(idTag) + d == EndTag(idTag) + ("\n" + d);
    var inner := id + (EndTag(idTag) + ("\n" + d));
    OpenText(tag, idTag, inner);
  }

  lemma OpenText(tag: string, idTag: string, inner: string)
    ensures "\n" + (OpenPrincipal(tag, idTag) + inner) ==
            "\n  " + ("<" + (tag + (">" + ("\n    " + ("<" + (idTag + (">" + inner)))))))
  {
    var a := ">" + ("\n    " + ("<" + (idTag + (">" + inner))));
    assert (">\n    <" + idTag + ">") + inner == a;
    assert OpenPrincipal(tag, idTag) + inner == "  <" + (tag + a);
  }

  lemma PrincipalReads(tag: string, idTag: string, p: Principal, rest: string, nodes: seq<Node>, tail: string)
    requires IsName(tag) && IsName(idTag) && ParseContent("\n" + rest) == Some((nodes, tail))
    ensures ParseContent("\n" + PrincipalOnto(tag, idTag, p, rest)) ==
            Some(([Text("\n  "), PrincipalNode(tag, idTag, p)] + nodes, tail))
  {
    hide ParseContent, ParseElement, EscapeText, DescriptionOnto, ClosePrincipal, PrincipalOnto, Tagged, EndTag, IsName;
    hide DescriptionNodes;
    var after := "\n" + DescriptionOnto(p.description, ClosePrincipal(tag) + rest);
    var end := EndTag(tag) + ("\n" + rest);
    var id := Tagged(idTag, [], EscapeText(p.identifier) + (EndTag(idTag) + after));
    PrincipalText(tag, idTag, p, rest);
    DescriptionReads(p.description, tag, rest);
    LeafReads(idTag, p.identifier, after);
    SpacedReads("\n    ", id, Element(idTag, [], Content(p.identifier)), after, DescriptionNodes(p.description), end);
    var inside := [Text("\n    "), Element(idTag, [], Content(p.identifier))] + DescriptionNodes(p.description);
    TaggedReads(tag, [], "\n    " + id, inside, "\n" + rest);
    SpacedReads("\n  ", Tagged(tag, [], "\n    " + id), PrincipalNode(tag, idTag, p), "\n" + rest, nodes, tail);
  }

  // ---------------------------------------------------------------- the pack and the envelope

  /** The middle section reads as these nodes, white space before it included. */
  ghost predicate MiddleReadsAs(middle: string, nodes: seq<Node>) {
    forall tail :: StartsWith(tail, "</") ==> ParseContent("\n" + (middle + tail)) == Some((nodes, tail))
  }

  lemma RoutingWords()
    ensures IsWord("From") && IsWord("FromVAC") && IsWord("To") && IsWord("ToVAC")
    ensures IsWord("PartyId") && IsWord("RoutingId")
  {
  }

  lemma PackWords()
    ensures IsWord("InvoicePack") && IsWord("InvoiceEnvelope") && IsWord("count") && IsWord("messageType")
    ensures IsWord("version") && IsWord("xmlns")
  {
  }

  lemma VersionIsPlain()
    ensures Escape("v41") == "v41"
  {
    EscapePlain("v41");
  }

  lemma PackText(count: nat, messageType: string, rest: string)
    ensures "\n" + PackOnto(count, messageType, rest) ==
            "\n  " + Tagged("InvoicePack", PackNode(count, messageType, []).attributes, "\n" + rest)
  {
    hide Escape, Decimal.Render;
    DecimalIsPlain(count);
    var c, m, v := Decimal.Render(count), Escape(messageType), Escape("v41");
    var attributes := PackNode(count, messageType, []).attributes;
    ThreeAttributes(attributes[0], attributes[1], attributes[2], ">" + ("\n" + rest));
    PackPieces(c, m, v, rest);
  }

  lemma DecimalIsPlain(n: nat)
    ensures Escape(Decimal.Render(n)) == Decimal.Render(n)
  {
    EscapePlain(Decimal.Render(n));
  }

  lemma ThreeAttributes(a: Attribute, b: Attribute, c: Attribute, rest: string)
    ensures AttributesOnto([a, b, c], rest) ==
            " " + (a.name + ("=\"" + (Escape(a.value) + ("\"" + (" " + (b.name + ("=\"" + (Escape(b.value) +
            ("\"" + (" " + (c.name + ("=\"" + (Escape(c.value) + ("\"" + rest))))))))))))))
  {
    hide Escape;
    assert [a, b, c][1..] == [b, c] && [b, c][1..] == [c] && [c][1..] == [];
    assert AttributesOnto([], rest) == rest;
    assert AttributesOnto([c], rest) == " " + (c.name + ("=\"" + (Escape(c.value) + ("\"" + rest))));
  }

  lemma PackPieces(c: string, m: string, v: string, rest: string)
    ensures "\n" + ("  <InvoicePack count=\"" + (c + ("\" messageType=\"" + (m +
            ("\" version=\"" + (v + ("\">\n" + rest))))))) ==
            "\n  " + ("<" + ("InvoicePack" + (" " + ("count" + ("=\"" + (c +
            ("\"" + (" " + ("messageType" + ("=\"" + (m +
            ("\"" + (" " + ("version" + ("=\"" + (v + ("\"" + (">" + ("\n" + rest)))))))))))))))))))
  {
    var v2 := v + ("\"" + (">" + ("\n" + rest)));
    assert "\">\n" + rest == "\"" + (">" + ("\n" + rest));
    var m2 := m + ("\"" + (" " + ("version" + ("=\"" + v2))));
    VersionPiece(v2);
    var c2 := c + ("\"" + (" " + ("messageType" + ("=\"" + m2))));
    TypePiece(m2);
    CountPiece(c2);
  }

  lemma VersionPiece(rest: string)
    ensures "\" version=\"" + rest == "\"" + (" " + ("version" + ("=\"" + rest)))
  {
  }

  lemma TypePiece(rest: string)
    ensures "\" messageType=\"" + rest == "\"" + (" " + ("messageType" + ("=\"" + rest)))
  {
  }

  lemma CountPiece(rest: string)
    ensures "\n" + ("  <InvoicePack count=\"" + rest) ==
            "\n  " + ("<" + ("InvoicePack" + (" " + ("count" + ("=\"" + rest)))))
  {
  }

  /** The last entry of the envelope and its end. */
  lemma PackReads(count: nat, messageType: string, middle: string, nodes: seq<Node>)
    requires MiddleReadsAs(middle, nodes)
    ensures ParseContent("\n" + PackOnto(count, messageType, middle + Closing())) ==
            Some(([Text("\n  "), PackNode(count, messageType, nodes), Text("\n")], "</InvoiceEnvelope>\n"))
  {
    hide ParseContent, ParseElement, PackOnto, Tagged, AttributesOnto, Decimal.Render, IsName, IsWord;
    var after := "\n</InvoiceEnvelope>\n";
    ClosingText();
    PackText(count, messageType, middle + Closing());
    PackNames();
    var attributes := PackNode(count, messageType, []).attributes;
    assert ParseContent("\n" + (middle + Closing())) == Some((nodes, Closing()));
    TaggedReads("InvoicePack", attributes, "\n" + (middle + Closing()), nodes, after);
    SpaceBeforeEnd("\n", "InvoiceEnvelope", "\n");
    EnvelopeEnd();
    SpacedReads("\n  ", Tagged("InvoicePack", attributes, "\n" + (middle + Closing())),
                PackNode(count, messageType, nodes), after, [Text("\n")], "</InvoiceEnvelope>\n");
    assert [Text("\n  "), PackNode(count, messageType, nodes)] + [Text("\n")] ==
           [Text("\n  "), PackNode(count, messageType, nodes), Text("\n")];
  }

  lemma ClosingText()
    ensures Closing() == EndTag("InvoicePack") + "\n</InvoiceEnvelope>\n" && StartsWith(Closing(), "</")
  {
  }

  lemma EnvelopeEnd()
    ensures "\n" + (EndTag("InvoiceEnvelope") + "\n") == "\n</InvoiceEnvelope>\n"
    ensures EndTag("InvoiceEnvelope") + "\n" == "</InvoiceEnvelope>\n"
  {
  }

  lemma PackNames()
    ensures IsName("InvoicePack") && IsName("count") && IsName("messageType") && IsName("version")
  {
    hide IsName, IsWord;
    PackWords();
    WordIsName("InvoicePack");
    WordIsName("count");
    WordIsName("messageType");
    WordIsName("version");
  }

  lemma RoutingNames()
    ensures IsName("From") && IsName("FromVAC") && IsName("To") && IsName("ToVAC")
    ensures IsName("PartyId") && IsName("RoutingId")
  {
    hide IsName, IsWord;
    RoutingWords();
    WordIsName("From");
    WordIsName("FromVAC");
    WordIsName("To");
    WordIsName("ToVAC");
    WordIsName("PartyId");
    WordIsName("RoutingId");
  }

  /** The children of the envelope in front of the pack. */
  lemma RoutingReads(r: Routing, rest: string, nodes: seq<Node>, tail: string)
    requires ParseContent("\n" + rest) == Some((nodes, tail))
    ensures ParseContent("\n" + RoutingOnto(r, rest)) ==
            Some(([Text("\n  "), PrincipalNode("From", "PartyId", r.from),
                   Text("\n  "), PrincipalNode("FromVAC", "RoutingId", r.fromVac),
                   Text("\n  "), PrincipalNode("To", "PartyId", r.to),
                   Text("\n  "), PrincipalNode("ToVAC", "RoutingId", r.toVac)] + nodes, tail))
  {
    hide ParseContent, PrincipalOnto, PrincipalNode, IsName;
    RoutingNames();
    var t4 := PrincipalOnto("ToVAC", "RoutingId", r.toVac, rest);
    var t3 := PrincipalOnto("To", "PartyId", r.to, t4);
    var t2 := PrincipalOnto("FromVAC", "RoutingId", r.fromVac, t3);
    var n4 := [Text("\n  "), PrincipalNode("ToVAC", "RoutingId", r.toVac)] + nodes;
    var n3 := [Text("\n  "), PrincipalNode("To", "PartyId", r.to)] + n4;
    var n2 := [Text("\n  "), PrincipalNode("FromVAC", "RoutingId", r.fromVac)] + n3;
    PrincipalReads("ToVAC", "RoutingId", r.toVac, rest, nodes, tail);
    PrincipalReads("To", "PartyId", r.to, t4, n4, tail);
    PrincipalReads("FromVAC", "RoutingId", r.fromVac, t3, n3, tail);
    PrincipalReads("From", "PartyId", r.from, t2, n2, tail);
    assert [Text("\n  "), PrincipalNode("From", "PartyId", r.from)] + n2 ==
           [Text("\n  "), PrincipalNode("From", "PartyId", r.from),
            Text("\n  "), PrincipalNode("FromVAC", "RoutingId", r.fromVac),
            Text("\n  "), PrincipalNode("To", "PartyId", r.to),
            Text("\n  "), PrincipalNode("ToVAC", "RoutingId", r.toVac)] + nodes;
  }

  predicate IsPlain(s: string) { forall i :: 0 <= i < |s| ==> s[i] !in "&<>\"'" }

  lemma {:induction false} EscapeConcat(a: string, b: string)
    ensures Escape(a + b) == Escape(a) + Escape(b)
  {
    hide EscapeChar;
    if a == "" {
      assert a + b == b;
    } else {
      assert (a + b)[1..] == a[1..] + b;
      EscapeConcat(a[1..], b);
      Assoc(EscapeChar(a[0]), Escape(a[1..]), Escape(b));
    }
  }

  lemma {:induction false} PlainConcat(a: string, b: string)
    requires IsPlain(a) && IsPlain(b)
    ensures IsPlain(a + b)
  {
  }

  lemma NamespaceIsPlain()
    ensures Escape("urn:GEINV:InvoiceEnvelope:4.1") == "urn:GEINV:InvoiceEnvelope:4.1"
  {
    hide Escape;
    PlainConcat("urn:GEINV:", "InvoiceEnvelope:4.1");
    assert "urn:GEINV:" + "InvoiceEnvelope:4.1" == "urn:GEINV:InvoiceEnvelope:4.1";
    EscapePlain("urn:GEINV:InvoiceEnvelope:4.1");
  }

  lemma SchemaIsPlain()
    ensures Escape("InvoiceEnvelope.xsd") == "InvoiceEnvelope.xsd" && Escape(" ") == " "
  {
    hide Escape;
    EscapePlain("InvoiceEnvelope.xsd");
    EscapePlain(" ");
  }

  lemma InstanceNamespaceIsPlain()
    ensures Escape("http://www.w3.org/2001/XMLSchema-instance") == "http://www.w3.org/2001/XMLSchema-instance"
  {
    hide Escape;
    PlainConcat("http://www.w3.org/", "2001/XMLSchema-instance");
    assert "http://www.w3.org/" + "2001/XMLSchema-instance" == "http://www.w3.org/2001/XMLSchema-instance";
    EscapePlain("http://www.w3.org/2001/XMLSchema-instance");
  }

  lemma LocationIsPlain()
    ensures Escape("urn:GEINV:InvoiceEnvelope:4.1 InvoiceEnvelope.xsd") ==
            "urn:GEINV:InvoiceEnvelope:4.1" + " " + "InvoiceEnvelope.xsd"
  {
    hide Escape;
    NamespaceIsPlain();
    SchemaIsPlain();
    LocationParts();
    EscapeConcat("urn:GEINV:InvoiceEnvelope:4.1", " ");
    EscapeConcat("urn:GEINV:InvoiceEnvelope:4.1" + " ", "InvoiceEnvelope.xsd");
  }

  lemma LocationParts()
    ensures "urn:GEINV:InvoiceEnvelope:4.1" + " " + "InvoiceEnvelope.xsd" ==
            "urn:GEINV:InvoiceEnvelope:4.1 InvoiceEnvelope.xsd"
  {
  }

  lemma LocationPiece(n: string, s: string, body: string)
    ensures (n + (" " + (s + "\">\n"))) + body == (n + " " + s) + ("\"" + (">" + ("\n" + body)))
  {
  }

  lemma InstancePiece(x: string, location: string, body: string)
    ensures (x + ("\" xsi:schemaLocation=\"" + location)) + body ==
            x + ("\"" + (" " + ("xsi:schemaLocation" + ("=\"" + (location + body)))))
  {
  }

  lemma NamespacePiece(n: string, instance: string, body: string)
    ensures (n + ("\" xmlns:xsi=\"" + instance)) + body ==
            n + ("\"" + (" " + ("xmlns:xsi" + ("=\"" + (instance + body)))))
  {
  }

  lemma NamePiece(namespace: string, body: string)
    ensures "\n<InvoiceEnvelope xmlns=\"" + namespace + body ==
            "\n" + ("<" + ("InvoiceEnvelope" + (" " + ("xmlns" + ("=\"" + (namespace + body))))))
  {
  }

  lemma OpeningText(body: string)
    ensures Opening() + body == "\n" + Tagged("InvoiceEnvelope", EnvelopeAttributes(), "\n" + body)
  {
    hide Escape;
    NamespaceIsPlain();
    SchemaIsPlain();
    InstanceNamespaceIsPlain();
    LocationIsPlain();
    var n, x, s := "urn:GEINV:InvoiceEnvelope:4.1", "http://www.w3.org/2001/XMLSchema-instance", "InvoiceEnvelope.xsd";
    OpeningParts(n, x, s, body);
    var a := EnvelopeAttributes();
    ThreeAttributes(a[0], a[1], a[2], ">" + ("\n" + body));
  }

  lemma OpeningParts(n: string, x: string, s: string, body: string)
    ensures "\n<InvoiceEnvelope xmlns=\"" + (n + ("\" xmlns:xsi=\"" + (x + ("\" xsi:schemaLocation=\"" +
            (n + (" " + (s + "\">\n"))))))) + body ==
            "\n" + ("<" + ("InvoiceEnvelope" + (" " + ("xmlns" + ("=\"" + (n +
            ("\"" + (" " + ("xmlns:xsi" + ("=\"" + (x +
            ("\"" + (" " + ("xsi:schemaLocation" + ("=\"" + ((n + " " + s) +
            ("\"" + (">" + ("\n" + body)))))))))))))))))))
  {
    var location := n + (" " + (s + "\">\n"));
    var instance := x + ("\" xsi:schemaLocation=\"" + location);
    LocationPiece(n, s, body);
    InstancePiece(x, location, body);
    NamespacePiece(n, instance, body);
    NamePiece(n + ("\" xmlns:xsi=\"" + instance), body);
  }

  lemma EnvelopeNames()
    ensures IsName("InvoiceEnvelope") && IsName("xmlns") && IsName("xmlns:xsi") && IsName("xsi:schemaLocation")
  {
    PackWords();
    WordIsName("InvoiceEnvelope");
    WordIsName("xmlns");
  }

  // ---------------------------------------------------------------- main results

  /**
    The envelope text is a line feed and one element with the attributes, the four entries and
    the pack, each closed where it belongs, whenever the middle section reads as content.
   */
  lemma EnvelopeReads(r: Routing, count: nat, messageType: string, middle: string, nodes: seq<Node>)
    requires MiddleReadsAs(middle, nodes)
    ensures var text := EnvelopeText(r, count, messageType, middle);
            text != "" && text[0] == '\n'
            && ParseElement(text[1..]) == Some((EnvelopeNode(r, count, messageType, nodes), "\n"))
  {
    hide ParseContent, ParseElement, RoutingOnto, PackOnto, Tagged, PrincipalNode, IsName, Opening, EndTag;
    var pack := PackOnto(count, messageType, middle + Closing());
    var body := RoutingOnto(r, pack);
    PackReads(count, messageType, middle, nodes);
    var last := [Text("\n  "), PackNode(count, messageType, nodes), Text("\n")];
    EnvelopeEnd();
    RoutingReads(r, pack, last, EndTag("InvoiceEnvelope") + "\n");
    assert EnvelopeNode(r, count, messageType, nodes).children ==
           [Text("\n  "), PrincipalNode("From", "PartyId", r.from),
            Text("\n  "), PrincipalNode("FromVAC", "RoutingId", r.fromVac),
            Text("\n  "), PrincipalNode("To", "PartyId", r.to),
            Text("\n  "), PrincipalNode("ToVAC", "RoutingId", r.toVac)] + last;
    EnvelopeNames();
    OpeningText(body);
    TaggedReads("InvoiceEnvelope", EnvelopeAttributes(), "\n" + body,
                EnvelopeNode(r, count, messageType, nodes).children, "\n");
    var t := Tagged("InvoiceEnvelope", EnvelopeAttributes(), "\n" + body);
    assert ("\n" + t)[1..] == t;
  }

  /** Invoices in the pack, each on its own line. */
  function InvoiceNodes(invoices: seq<Invoice>): seq<Node> {
    if invoices == [] then [Text("\n")]
    else [Text("\n"), InvoiceNode(invoices[0])] + InvoiceNodes(invoices[1..])
  }

  lemma InvoiceStarts(v: Invoice, rest: string)
    ensures var t := XmlText(v) + rest;
            |t| >= 2 && t[0] == '<' && t[1] != '/' && ParseElement(t) == Some((InvoiceNode(v), rest))
  {
    hide ParseElement, WellFormed, Print, InvoiceNode;
    RootIsElement(v);
    InvoiceWellFormed(v);
    ParseElementInverts(InvoiceNode(v), rest);
    F0401Printer.XmlTextEnds(v);
  }

  lemma RootIsElement(v: Invoice)
    ensures InvoiceNode(v).Element?
  {
  }

  lemma EndReads(tail: string)
    requires StartsWith(tail, "</")
    ensures ParseContent("\n" + tail) == Some(([Text("\n")], tail))
  {
    hide ParseContent, Unescape;
    SpaceIsPlain("\n");
    NothingReads(tail);
    TextFirst("\n", "\n", tail, [], tail);
    assert [Text("\n")] + [] == [Text("\n")];
  }

  lemma NothingReads(tail: string)
    requires StartsWith(tail, "</")
    ensures ParseContent(tail) == Some(([], tail)) && tail != "" && tail[0] == '<'
  {
  }

  lemma {:induction false} InvoicesRead(invoices: seq<Invoice>, tail: string)
    requires StartsWith(tail, "</")
    ensures ParseContent("\n" + (Middle(XmlTexts(invoices)) + tail)) ==
            Some((InvoiceNodes(LineFeedsOnly(invoices)), tail))
  {
    hide ParseContent, ParseElement, XmlText, InvoiceNode, WithLineFeeds, LineEnds.Appended;
    if invoices == [] {
      EndReads(tail);
      assert Middle([]) + tail == tail;
    } else {
      var texts, read := XmlTexts(invoices), LineFeedsOnly(invoices);
      var v, rest := WithLineFeeds(invoices[0]), "\n" + (Middle(texts[1..]) + tail);
      assert texts[1..] == XmlTexts(invoices[1..]) && read[1..] == LineFeedsOnly(invoices[1..]);
      AppendedInvoice(invoices[0]);
      assert Middle(texts) + tail == XmlText(v) + rest;
      InvoicesRead(invoices[1..], tail);
      InvoiceStarts(v, rest);
      SpacedReads("\n", XmlText(v) + rest, InvoiceNode(v), rest, InvoiceNodes(read[1..]), tail);
    }
  }

  /** The octets are UTF-8 of a line feed, this element, and a line feed. */
  predicate IsDocument(content: bytes, node: Node) {
    hide Utf8.Decode, ParseElement;
    var text := Utf8.Decode(content);
    && text.Some? && text.value != "" && text.value[0] == '\n'
    && ParseElement(text.value[1..]) == Some((node, "\n"))
  }

  lemma EncodedDocument(text: string, node: Node)
    requires text != "" && text[0] == '\n' && ParseElement(text[1..]) == Some((node, "\n"))
    ensures IsDocument(Utf8.Encode(text), node)
  {
    hide Utf8.Encode, Utf8.Decode, ParseElement;
    Utf8.DecodeInverts(text);
  }

  /** What is signed for a list of invoices is one XML element that holds their elements in order. */
  lemma InvoiceEnvelopeReads(routing: Routing, messageType: string, invoices: seq<Invoice>)
    ensures Clean(Pack.EnvelopeOf(routing, messageType, invoices).payloads)
    ensures IsDocument(Serialized(Pack.EnvelopeOf(routing, messageType, invoices)),
                       EnvelopeNode(routing, |invoices|, messageType, InvoiceNodes(LineFeedsOnly(invoices))))
  {
    hide Clean, Serialized, Utf8.Encode, ParseElement, EnvelopeText, EnvelopeNode, IsDocument, MiddleReadsAs;
    hide InvoiceNodes, LineFeedsOnly, Middle, XmlTexts, Pack.EnvelopeOf;
    Pack.InvoicesSerialize(routing, messageType, invoices);
    MiddleIsInvoices(invoices);
    EnvelopeReads(routing, |invoices|, messageType, Middle(XmlTexts(invoices)), InvoiceNodes(LineFeedsOnly(invoices)));
    EncodedDocument(Pack.EnvelopeTextOf(routing, messageType, invoices),
                    EnvelopeNode(routing, |invoices|, messageType, InvoiceNodes(LineFeedsOnly(invoices))));
  }

  lemma MiddleIsInvoices(invoices: seq<Invoice>)
    ensures MiddleReadsAs(Middle(XmlTexts(invoices)), InvoiceNodes(LineFeedsOnly(invoices)))
  {
    hide ParseContent, InvoiceNodes, LineFeedsOnly, Middle, XmlTexts;
    var middle := Middle(XmlTexts(invoices));
    forall tail | StartsWith(tail, "</")
      ensures ParseContent("\n" + (middle + tail)) == Some((InvoiceNodes(LineFeedsOnly(invoices)), tail))
    {
      InvoicesRead(invoices, tail);
    }
  }
}
