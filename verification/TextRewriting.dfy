/**
  Rewrites of text that pass through the printer of elements: rewriting the printed text is
  printing the rewritten tree.
 */
module TextRewriting {
  import opened Xml
  import opened XmlTree

  type Rewrite = string -> string

  predicate Printable(s: string) { forall c :: c in s ==> ' ' <= c <= '~' }

  /** The two pieces do not meet inside a CR LF. */
  predicate Separate(a: string, b: string) { a == "" || b == "" || a[|a| - 1] != '\r' || b[0] != '\n' }

  /** Leaves printable ASCII alone, works piece by piece, and commutes with escaping. */
  ghost predicate Textual(f: Rewrite) {
    && (forall s :: Printable(s) ==> f(s) == s)
    && (forall s :: f(s) == "" ==> s == "")
    && (forall s :: f(Escape(s)) == Escape(f(s)))
    && (forall a, b :: Separate(a, b) ==> f(a + b) == f(a) + f(b))
  }

  lemma Fixed(s: string, f: Rewrite)
    requires Textual(f) && Printable(s)
    ensures f(s) == s
  {
  }

  lemma Joined(a: string, b: string, f: Rewrite)
    requires Textual(f) && Separate(a, b)
    ensures f(a + b) == f(a) + f(b)
  {
  }

  lemma Escaped(s: string, f: Rewrite)
    requires Textual(f)
    ensures f(Escape(s)) == Escape(f(s))
  {
  }

  lemma EmptyOnly(s: string, f: Rewrite)
    requires Textual(f)
    ensures f(s) == "" <==> s == ""
  {
    Fixed("", f);
  }

  lemma PrintableSplits(a: string, b: string)
    requires Printable(a) || Printable(b)
    ensures Separate(a, b)
  {
    if Printable(a) && a != "" {
      assert a[|a| - 1] in a;
    }
    if Printable(b) && b != "" {
      assert b[0] in b;
    }
  }

  /** Markup before, between and after. */
  lemma JoinedMarkup(a: string, markup: string, b: string, f: Rewrite)
    requires Textual(f) && Printable(markup) && markup != ""
    ensures f(a + markup + b) == f(a) + markup + f(b)
  {
    hide Textual;
    Fixed(markup, f);
    PrintableSplits(a, markup);
    Joined(a, markup, f);
    assert markup[|markup| - 1] in markup;
    assert (a + markup)[|a + markup| - 1] == markup[|markup| - 1];
    Joined(a + markup, b, f);
  }

  // ---------------------------------------------------------------- trees

  function MapAttributes(attributes: seq<Attribute>, f: Rewrite): seq<Attribute> {
    if attributes == [] then []
    else [Attribute(f(attributes[0].name), f(attributes[0].value))] + MapAttributes(attributes[1..], f)
  }

  function MapNode(node: Node, f: Rewrite): Node
    decreases node
  {
    match node
    case Text(value) => Text(f(value))
    case Element(name, attributes, children) =>
      Element(f(name), MapAttributes(attributes, f), MapNodes(children, f))
  }

  function MapNodes(nodes: seq<Node>, f: Rewrite): seq<Node>
    decreases nodes
  {
    if nodes == [] then [] else [MapNode(nodes[0], f)] + MapNodes(nodes[1..], f)
  }

  lemma FirstNodeMapped(node: Node, rest: seq<Node>, f: Rewrite)
    ensures MapNodes([node] + rest, f) == [MapNode(node, f)] + MapNodes(rest, f)
  {
    assert ([node] + rest)[1..] == rest;
  }

  lemma MarkupIsPrintable()
    ensures Printable("") && Printable(" ") && Printable("=\"") && Printable("\"") && Printable("<") && Printable(">")
    ensures Printable("</")
  {
  }

  lemma AttributeRewritten(name: string, value: string, rest: string, f: Rewrite)
    requires Textual(f)
    ensures f(" " + name + "=\"" + Escape(value) + "\"" + rest) ==
            " " + f(name) + "=\"" + Escape(f(value)) + "\"" + f(rest)
  {
    hide Textual, Printable, Escape;
    MarkupIsPrintable();
    Fixed("", f);
    Escaped(value, f);
    assert "" + " " + name == " " + name;
    JoinedMarkup("", " ", name, f);
    JoinedMarkup(" " + name, "=\"", Escape(value), f);
    JoinedMarkup(" " + name + "=\"" + Escape(value), "\"", rest, f);
  }

  lemma {:induction false} AttributesRewritten(attributes: seq<Attribute>, f: Rewrite)
    requires Textual(f)
    ensures f(PrintAttributes(attributes)) == PrintAttributes(MapAttributes(attributes, f))
  {
    hide Textual, Escape;
    if attributes == [] {
      Fixed("", f);
    } else {
      AttributesRewritten(attributes[1..], f);
      AttributeRewritten(attributes[0].name, attributes[0].value, PrintAttributes(attributes[1..]), f);
    }
  }

  lemma TagsRewritten(name: string, attributes: string, children: string, f: Rewrite)
    requires Textual(f) && (attributes == "" || attributes[0] == ' ')
    ensures f("<" + name + attributes + ">" + children + EndTag(name)) ==
            "<" + f(name) + f(attributes) + ">" + f(children) + EndTag(f(name))
  {
    hide Textual, Printable;
    MarkupIsPrintable();
    Fixed("", f);
    var head := "<" + name + attributes;
    assert "" + "<" + name == "<" + name;
    JoinedMarkup("", "<", name, f);
    Joined("<" + name, attributes, f);
    JoinedMarkup(head, ">", children, f);
    JoinedMarkup(head + ">" + children, "</", name, f);
    assert head + ">" + children + "</" + name + ">" + "" == head + ">" + children + EndTag(name);
    JoinedMarkup(head + ">" + children + "</" + name, ">", "", f);
  }

  lemma PrintStarts(node: Node)
    requires node.Element?
    ensures var s := Print(node); s != "" && s[0] == '<' && s[|s| - 1] == '>'
  {
  }

  lemma AttributesStart(attributes: seq<Attribute>)
    ensures PrintAttributes(attributes) == "" || PrintAttributes(attributes)[0] == ' '
  {
  }

  /** No text is followed by text, so a piece of text ends at markup. */
  lemma NodesSeparate(nodes: seq<Node>)
    requires Normal(nodes) && nodes != []
    ensures Separate(Print(nodes[0]), PrintAll(nodes[1..]))
  {
    if nodes[0].Element? {
      PrintStarts(nodes[0]);
    } else if |nodes| > 1 {
      PrintStarts(nodes[1]);
    }
    hide Print;
  }

  /** Rewriting the text of a well-formed element prints the rewritten element. */
  lemma {:induction false} PrintRewritten(node: Node, f: Rewrite)
    requires Textual(f) && WellFormed(node)
    ensures f(Print(node)) == Print(MapNode(node, f))
    decreases node, 1
  {
    hide Textual, Escape, IsName, PrintAttributes, MapAttributes, EndTag;
    match node
    case Text(value) => Escaped(value, f);
    case Element(name, attributes, children) =>
      AttributesRewritten(attributes, f);
      AttributesStart(attributes);
      PrintAllRewritten(children, f);
      TagsRewritten(name, PrintAttributes(attributes), PrintAll(children), f);
  }

  lemma {:induction false} PrintAllRewritten(nodes: seq<Node>, f: Rewrite)
    requires Textual(f) && Normal(nodes)
    ensures f(PrintAll(nodes)) == PrintAll(MapNodes(nodes, f))
    decreases nodes, 0
  {
    hide Textual, Print, MapNode, WellFormed;
    if nodes == [] {
      Fixed("", f);
    } else {
      PrintRewritten(nodes[0], f);
      PrintAllRewritten(nodes[1..], f);
      NodesSeparate(nodes);
      Joined(Print(nodes[0]), PrintAll(nodes[1..]), f);
    }
  }

  // ---------------------------------------------------------------- masking a class of characters

  predicate Clear(s: string, bad: char -> bool) { forall c :: c in s ==> !bad(c) }

  /** No printable ASCII character is bad, so no markup is. */
  ghost predicate Foreign(bad: char -> bool) { forall c: char :: ' ' <= c <= '~' ==> !bad(c) }

  function Masked(s: string, bad: char -> bool): (r: string)
    ensures |r| == |s|
  {
    if s == "" then "" else [if bad(s[0]) then '?' else s[0]] + Masked(s[1..], bad)
  }

  function Mask(bad: char -> bool): Rewrite { s => Masked(s, bad) }

  /** Masking changes nothing exactly when there is nothing to mask. */
  lemma {:induction false} MaskedExactly(s: string, bad: char -> bool)
    requires Foreign(bad)
    ensures Masked(s, bad) == s <==> Clear(s, bad)
  {
    if s != "" {
      MaskedExactly(s[1..], bad);
      assert Masked(s, bad)[1..] == Masked(s[1..], bad);
      assert forall c :: c in s <==> c == s[0] || c in s[1..];
    }
  }

  lemma {:induction false} MaskedConcat(a: string, b: string, bad: char -> bool)
    ensures Masked(a + b, bad) == Masked(a, bad) + Masked(b, bad)
  {
    if a == "" {
      assert a + b == b;
    } else {
      assert (a + b)[1..] == a[1..] + b;
      MaskedConcat(a[1..], b, bad);
    }
  }

  lemma MaskedChar(c: char, bad: char -> bool)
    requires Foreign(bad)
    ensures Masked(EscapeChar(c), bad) == EscapeChar(if bad(c) then '?' else c)
  {
    if EscapeChar(c) != [c] {
      assert Printable(EscapeChar(c));
      assert Clear(EscapeChar(c), bad);
      MaskedExactly(EscapeChar(c), bad);
    } else {
      assert [c][1..] == "";
    }
  }

  lemma {:induction false} MaskedEscape(s: string, bad: char -> bool)
    requires Foreign(bad)
    ensures Masked(Escape(s), bad) == Escape(Masked(s, bad))
  {
    hide Foreign, EscapeChar;
    if s != "" {
      MaskedEscape(s[1..], bad);
      MaskedChar(s[0], bad);
      MaskedConcat(EscapeChar(s[0]), Escape(s[1..]), bad);
      assert Masked(s, bad)[1..] == Masked(s[1..], bad);
    }
  }

  lemma MaskIsTextual(bad: char -> bool)
    requires Foreign(bad)
    ensures Textual(Mask(bad))
  {
    hide Foreign, Escape, Masked, Clear, Printable;
    var f := Mask(bad);
    forall s | Printable(s)
      ensures f(s) == s
    {
      PrintableIsClear(s, bad);
      MaskedExactly(s, bad);
    }
    forall s
      ensures f(Escape(s)) == Escape(f(s))
    {
      MaskedEscape(s, bad);
    }
    forall a, b | Separate(a, b)
      ensures f(a + b) == f(a) + f(b)
    {
      MaskedConcat(a, b, bad);
    }
  }

  lemma PrintableIsClear(s: string, bad: char -> bool)
    requires Foreign(bad) && Printable(s)
    ensures Clear(s, bad)
  {
  }
}
