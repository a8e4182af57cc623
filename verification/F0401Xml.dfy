/** The XML text of an F0401 invoice, and the parser that recovers the invoice from it. */
module F0401Xml {
  import opened Wrappers
  import opened Xml
  import opened XmlTree
  import opened F0401Document
  import opened F0401Tree
  import opened F0401MainTree
  import opened F0401InvoiceTree

  /** The text `F0401Invoice::to_xml` produces. */
  function XmlText(v: Invoice): string { Print(InvoiceNode(v)) }

  /** Parse one element of XML 1.0 and read it as an invoice. */
  function ParseInvoice(s: string): (r: Option<(Invoice, string)>)
    ensures r.Some? ==> |r.value.1| < |s|
  {
    var (node, rest) :- ParseElement(s);
    var v :- ReadInvoice(node);
    Some((v, rest))
  }

  // ---------------------------------------------------------------- the tree is well-formed

  predicate IsWord(s: string) {
    s != "" && forall i :: 0 <= i < |s| ==> 'A' <= s[i] <= 'Z' || 'a' <= s[i] <= 'z' || '0' <= s[i] <= '9'
  }

  lemma WordIsName(s: string)
    requires IsWord(s)
    ensures IsName(s)
  {
    forall i | 0 <= i < |s|
      ensures IsNameChar(s[i])
    {
      assert 'A' <= s[i] <= 'Z' || 'a' <= s[i] <= 'z' || '0' <= s[i] <= '9';
    }
  }

  /** An element that holds at most one piece of text. */
  predicate Flat(n: Node) {
    && n.Element? && IsWord(n.name) && n.attributes == []
    && (n.children == [] || (|n.children| == 1 && n.children[0].Text? && n.children[0].value != ""))
  }

  ghost predicate Elements(nodes: seq<Node>) {
    forall n :: n in nodes ==> n.Element? && WellFormed(n)
  }

  lemma FlatIsWellFormed(n: Node)
    requires Flat(n)
    ensures WellFormed(n)
  {
    WordIsName(n.name);
    if n.children != [] {
      assert n.children == [n.children[0]];
      assert n.children[1..] == [];
      assert Normal(n.children[1..]);
    }
  }

  lemma {:induction false} ElementsNormal(nodes: seq<Node>)
    requires Elements(nodes)
    ensures Normal(nodes)
  {
    if nodes != [] {
      assert nodes[0] in nodes;
      assert forall n :: n in nodes[1..] ==> n in nodes;
      ElementsNormal(nodes[1..]);
      if |nodes| > 1 {
        assert nodes[1] in nodes;
      }
    }
  }

  predicate AllFlat(nodes: seq<Node>) { forall n :: n in nodes ==> Flat(n) }

  lemma NothingFlat()
    ensures AllFlat([])
  {
  }

  lemma AddLeaf(tag: string, value: string, rest: seq<Node>) returns (nodes: seq<Node>)
    requires IsWord(tag) && AllFlat(rest)
    ensures nodes == [Leaf(tag, value)] + rest && AllFlat(nodes)
  {
    nodes := [Leaf(tag, value)] + rest;
  }

  lemma AddOptional(tag: string, value: Option<string>, rest: seq<Node>) returns (nodes: seq<Node>)
    requires IsWord(tag) && AllFlat(rest)
    ensures nodes == Optional(tag, value) + rest && AllFlat(nodes)
  {
    nodes := Optional(tag, value) + rest;
  }

  lemma FlatElements(nodes: seq<Node>)
    requires AllFlat(nodes)
    ensures Elements(nodes)
  {
    forall n | n in nodes
      ensures n.Element? && WellFormed(n)
    {
      FlatIsWellFormed(n);
    }
  }

  lemma AddElement(node: Node, rest: seq<Node>)
    requires node.Element? && WellFormed(node) && Elements(rest)
    ensures Elements([node] + rest)
  {
    hide WellFormed;
  }

  lemma BranchWellFormed(tag: string, children: seq<Node>)
    requires IsWord(tag) && Elements(children)
    ensures WellFormed(Element(tag, [], children))
  {
    WordIsName(tag);
    ElementsNormal(children);
  }

  lemma ContactFlat(c: Contact, rest: seq<Node>)
    requires AllFlat(rest)
    ensures AllFlat(ContactFields(c, rest))
  {
    hide AllFlat, Leaf, Optional;
    var n1 := AddOptional("FacsimileNumber", c.facsimileNumber, rest);
    var n2 := AddOptional("TelephoneNumber", c.telephoneNumber, n1);
    var n3 := AddOptional("PersonInCharge", c.personInCharge, n2);
    var n4 := AddOptional("Address", c.address, n3);
  }

  lemma ReferenceFlat(r: Reference, rest: seq<Node>)
    requires AllFlat(rest)
    ensures AllFlat(ReferenceFields(r, rest))
  {
    hide AllFlat, Leaf, Optional;
    var n1 := AddOptional("RoleRemark", r.roleRemark, rest);
    var n2 := AddOptional("CustomerNumber", r.customerNumber, n1);
    var n3 := AddOptional("EmailAddress", r.emailAddress, n2);
  }

  lemma RemarksFlat(r: Remarks, rest: seq<Node>)
    requires AllFlat(rest)
    ensures AllFlat(RemarksFields(r, rest))
  {
    hide AllFlat, Leaf, Optional;
    var n1 := AddOptional("CustomsClearanceMark", r.customsMark, rest);
    var n2 := AddOptional("MainRemark", r.mainRemark, n1);
    var n3 := AddOptional("BuyerRemark", r.buyerRemark, n2);
  }

  lemma RelationFlat(r: Relation, rest: seq<Node>)
    requires AllFlat(rest)
    ensures AllFlat(RelationFields(r, rest))
  {
    hide AllFlat, Leaf, Optional;
    var n1 := AddLeaf("InvoiceType", r.invoiceType, rest);
    var n2 := AddOptional("RelateNumber", r.relateNumber, n1);
    var n3 := AddOptional("Category", r.category, n2);
  }

  lemma CarrierFlat(c: Carrier, rest: seq<Node>)
    requires AllFlat(rest)
    ensures AllFlat(CarrierFields(c, rest))
  {
    hide AllFlat, Leaf, Optional;
    var n1 := AddLeaf("PrintMark", c.printMark, rest);
    var n2 := AddOptional("CarrierId2", c.carrierId2, n1);
    var n3 := AddOptional("CarrierId1", c.carrierId1, n2);
    var n4 := AddOptional("CarrierType", c.carrierType, n3);
    var n5 := AddLeaf("DonateMark", c.donateMark, n4);
    var n6 := AddOptional("GroupMark", c.groupMark, n5);
  }

  lemma ReceiverFlat(r: Receiver, rest: seq<Node>)
    requires AllFlat(rest)
    ensures AllFlat(ReceiverFields(r, rest))
  {
    hide AllFlat, Leaf, Optional;
    var n1 := AddOptional("BondedAreaConfirm", r.bondedArea, rest);
    var n2 := AddOptional("RandomNumber", r.randomNumber, n1);
    var n3 := AddOptional("NPOBAN", r.npoBan, n2);
  }

  lemma ReserveFlat(r: Reserve, rest: seq<Node>)
    requires AllFlat(rest)
    ensures AllFlat(ReserveFields(r, rest))
  {
    hide AllFlat, Leaf, Optional;
    var n1 := AddOptional("Reserved2", r.reserved2, rest);
    var n2 := AddOptional("Reserved1", r.reserved1, n1);
    var n3 := AddOptional("ZeroTaxRateReason", r.zeroTaxRateReason, n2);
  }

  lemma ItemWords()
    ensures IsWord("Description") && IsWord("Quantity") && IsWord("Unit") && IsWord("UnitPrice") && IsWord("Amount")
  {
  }

  lemma RemarkWords()
    ensures IsWord("SequenceNumber") && IsWord("Remark") && IsWord("RelateNumber")
  {
  }

  lemma TaxWords()
    ensures IsWord("TaxType") && IsWord("TaxRate") && IsWord("TaxAmount")
  {
  }

  lemma AmountWords()
    ensures IsWord("SalesAmount") && IsWord("FreeTaxSalesAmount") && IsWord("ZeroTaxSalesAmount")
    ensures IsWord("TotalAmount")
  {
  }

  lemma ItemFlat(p: ItemTexts)
    ensures AllFlat(ItemFields(p))
  {
    hide AllFlat, Leaf, Optional, IsWord;
    ItemWords();
    TaxWords();
    RemarkWords();
    NothingFlat();
    var n0: seq<Node> := [];
    var n1 := AddOptional("RelateNumber", p.relateNumber, n0);
    var n2 := AddOptional("Remark", p.remark, n1);
    var n3 := AddLeaf("SequenceNumber", p.sequenceNumber, n2);
    var n4 := AddLeaf("Amount", p.amount, n3);
    var n5 := AddLeaf("TaxType", p.taxType, n4);
    var n6 := AddLeaf("UnitPrice", p.unitPrice, n5);
    var n7 := AddOptional("Unit", p.unit, n6);
    var n8 := AddLeaf("Quantity", p.quantity, n7);
    var n9 := AddLeaf("Description", p.description, n8);
  }

  lemma SumsFlat(s: Sums, rest: seq<Node>)
    requires AllFlat(rest)
    ensures AllFlat(SumsFields(s, rest))
  {
    hide AllFlat, Leaf, Optional, IsWord;
    AmountWords();
    TaxWords();
    var n1 := AddLeaf("TotalAmount", s.totalAmount, rest);
    var n2 := AddLeaf("TaxAmount", s.taxAmount, n1);
    var n3 := AddLeaf("TaxRate", s.taxRate, n2);
    var n4 := AddLeaf("TaxType", s.taxType, n3);
    var n5 := AddLeaf("ZeroTaxSalesAmount", s.zeroTaxSalesAmount, n4);
    var n6 := AddLeaf("FreeTaxSalesAmount", s.freeTaxSalesAmount, n5);
    var n7 := AddLeaf("SalesAmount", s.salesAmount, n6);
  }

  lemma ExtrasFlat(e: Extras)
    ensures AllFlat(ExtrasFields(e))
  {
    hide AllFlat, Leaf, Optional;
    NothingFlat();
    var n0: seq<Node> := [];
    var n1 := AddOptional("Currency", e.currency, n0);
    var n2 := AddOptional("ExchangeRate", e.exchangeRate, n1);
    var n3 := AddOptional("OriginalCurrencyAmount", e.originalCurrencyAmount, n2);
    var n4 := AddOptional("DiscountAmount", e.discountAmount, n3);
  }

  lemma RoleWellFormed(tag: string, r: RoleDescription)
    requires IsWord(tag)
    ensures WellFormed(RoleNode(tag, r))
  {
    hide AllFlat, Leaf, ContactFields, ReferenceFields, WellFormed, Elements;
    NothingFlat();
    var reference := Reference(r.emailAddress, r.customerNumber, r.roleRemark);
    ReferenceFlat(reference, []);
    var contact := Contact(r.address, r.personInCharge, r.telephoneNumber, r.facsimileNumber);
    ContactFlat(contact, ReferenceFields(reference, []));
    var n1 := AddLeaf("Name", r.name, ContactFields(contact, ReferenceFields(reference, [])));
    var n := AddLeaf("Identifier", r.identifier, n1);
    FlatElements(n);
    BranchWellFormed(tag, n);
  }

  lemma ItemWellFormed(p: ProductItem)
    ensures WellFormed(ItemNode(p))
  {
    hide ItemFields, WellFormed, Elements;
    ItemFlat(ItemTextsOf(p));
    FlatElements(ItemFields(ItemTextsOf(p)));
    BranchWellFormed("ProductItem", ItemFields(ItemTextsOf(p)));
  }

  lemma AmountWellFormed(a: Amount)
    ensures WellFormed(AmountNode(a))
  {
    hide SumsFields, ExtrasFields, WellFormed, Elements;
    ExtrasFlat(ExtrasOf(a));
    SumsFlat(SumsOf(a), ExtrasFields(ExtrasOf(a)));
    FlatElements(SumsFields(SumsOf(a), ExtrasFields(ExtrasOf(a))));
    BranchWellFormed("Amount", SumsFields(SumsOf(a), ExtrasFields(ExtrasOf(a))));
  }

  lemma {:induction false} ItemsElements(items: seq<ProductItem>)
    ensures Elements(ItemNodes(items))
  {
    if items != [] {
      ItemWellFormed(items[0]);
      ItemsElements(items[1..]);
      AddElement(ItemNode(items[0]), ItemNodes(items[1..]));
      hide WellFormed;
    }
  }

  lemma MainWellFormed(m: Main)
    ensures WellFormed(MainNode(m))
  {
    var p := PartsOf(m);
    NothingFlat();
    hide AllFlat, Elements, WellFormed, Leaf;
    hide RemarksFields, RelationFields, CarrierFields, ReceiverFields, ReserveFields, RoleNode;
    ReserveFlat(p.reserve, []);
    var n5 := ReserveFields(p.reserve, []);
    ReceiverFlat(p.receiver, n5);
    var n4 := ReceiverFields(p.receiver, n5);
    CarrierFlat(p.carrier, n4);
    var n3 := CarrierFields(p.carrier, n4);
    RelationFlat(p.relation, n3);
    var n2 := RelationFields(p.relation, n3);
    RemarksFlat(p.remarks, n2);
    var n1 := RemarksFields(p.remarks, n2);
    FlatElements(n1);
    IssueElements(p.issue, n1);
    BranchWellFormed("Main", PartFields(p));
  }

  lemma AddLeafElement(tag: string, value: string, rest: seq<Node>) returns (nodes: seq<Node>)
    requires IsWord(tag) && Elements(rest)
    ensures nodes == [Leaf(tag, value)] + rest && Elements(nodes)
  {
    FlatIsWellFormed(Leaf(tag, value));
    AddElement(Leaf(tag, value), rest);
    nodes := [Leaf(tag, value)] + rest;
  }

  lemma AddRole(tag: string, r: RoleDescription, rest: seq<Node>) returns (nodes: seq<Node>)
    requires IsWord(tag) && Elements(rest)
    ensures nodes == [RoleNode(tag, r)] + rest && Elements(nodes)
  {
    RoleWellFormed(tag, r);
    AddElement(RoleNode(tag, r), rest);
    nodes := [RoleNode(tag, r)] + rest;
  }

  lemma IssueElements(i: Issue, rest: seq<Node>)
    requires Elements(rest)
    ensures Elements(IssueFields(i, rest))
  {
    hide Elements, Leaf, RoleNode;
    var n4 := AddRole("Buyer", i.buyer, rest);
    var n3 := AddRole("Seller", i.seller, n4);
    var n2 := AddLeafElement("InvoiceTime", i.time, n3);
    var n1 := AddLeafElement("InvoiceDate", i.date, n2);
    var n0 := AddLeafElement("InvoiceNumber", i.number, n1);
  }

  lemma InvoiceWellFormed(v: Invoice)
    ensures WellFormed(InvoiceNode(v))
  {
    hide WellFormed, Elements, MainNode, ItemNodes, AmountNode;
    MainWellFormed(v.main);
    ItemsElements(v.details);
    BranchWellFormed("Details", ItemNodes(v.details));
    AmountWellFormed(v.amount);
    BranchesAreElements(v);
    RootWellFormed(MainNode(v.main), DetailsNode(v.details), AmountNode(v.amount));
  }

  lemma BranchesAreElements(v: Invoice)
    ensures MainNode(v.main).Element? && DetailsNode(v.details).Element? && AmountNode(v.amount).Element?
  {
  }

  lemma RootWellFormed(a: Node, b: Node, c: Node)
    requires a.Element? && b.Element? && c.Element? && WellFormed(a) && WellFormed(b) && WellFormed(c)
    ensures WellFormed(Element("Invoice", ROOT_ATTRIBUTES, [a, b, c]))
  {
    WordIsName("Invoice");
    WordIsName("xmlns");
    assert Elements([a, b, c]) by { hide WellFormed; }
    ElementsNormal([a, b, c]);
    hide IsWord, IsName, Normal, Elements;
  }

  // ---------------------------------------------------------------- main results

  /** The XML text determines the invoice: every field, every absence, every item. */
  lemma ParseInvoiceInverts(v: Invoice, rest: string)
    ensures ParseInvoice(XmlText(v) + rest) == Some((v, rest))
  {
    hide WellFormed, Print, ParseElement, ReadInvoice;
    InvoiceWellFormed(v);
    ParseElementInverts(InvoiceNode(v), rest);
    ReadInvoiceExact(InvoiceNode(v), v);
  }

  lemma XmlTextInjective(v: Invoice, w: Invoice)
    ensures XmlText(v) == XmlText(w) <==> v == w
  {
    ParseInvoiceInverts(v, "");
    ParseInvoiceInverts(w, "");
    hide XmlText, ParseInvoice;
  }
}
