/**
  `F0401Invoice::to_xml`: the `push_*` functions append to one buffer, element by element,
  in the fixed order of the schema.  Each is proved against the printed element tree.
 */
module F0401Printer {
  import opened Wrappers
  import opened Bytes
  import opened Xml
  import opened XmlTree
  import opened F0401Document
  import opened F0401Tree
  import opened F0401MainTree
  import opened F0401InvoiceTree
  import opened F0401Xml
  import opened XmlWriter

  // ---------------------------------------------------------------- building blocks

  lemma PrintLeaf(tag: string, value: string)
    ensures Print(Leaf(tag, value)) == "<" + tag + ">" + Escape(value) + "</" + tag + ">"
  {
    var n := Leaf(tag, value);
    assert PrintAttributes([]) == "";
    assert "<" + tag + "" == "<" + tag;
    if value != "" {
      assert [Text(value)][1..] == [];
      assert PrintAll(n.children) == Escape(value) + "";
    }
    var open, kids := "<" + tag + ">", PrintAll(n.children);
    assert kids == Escape(value);
    Assoc(open + kids, "</" + tag, ">");
    Assoc(open + kids, "</", tag);
    assert Print(n) == open + kids + EndTag(tag);
  }

  lemma PrintCons(text: string, node: Node, rest: seq<Node>)
    ensures text + Print(node) + PrintAll(rest) == text + PrintAll([node] + rest)
  {
    assert ([node] + rest)[1..] == rest;
    Assoc(text, Print(node), PrintAll(rest));
  }

  lemma NothingPrinted(text: string)
    ensures text + PrintAll([]) == text
  {
  }

  method PushTextElement(out: TextBuffer, tag: string, value: string, ghost rest: seq<Node>)
    modifies out
    ensures out.text == old(out.text) + Print(Leaf(tag, value))
    ensures out.text + PrintAll(rest) == old(out.text) + PrintAll([Leaf(tag, value)] + rest)
  {
    PrintLeaf(tag, value);
    PrintCons(out.text, Leaf(tag, value), rest);
    hide Leaf, Print, PrintAll, Escape;
    out.Push('<');
    out.PushStr(tag);
    out.Push('>');
    PushEscaped(out, value);
    out.PushStr("</");
    out.PushStr(tag);
    out.Push('>');
    assert "<" == ['<'] && ">" == ['>'];
    Concat7(old(out.text), "<", tag, ">", Escape(value), "</", tag, ">");
  }

  lemma Concat7(t: string, a: string, b: string, c: string, d: string, e: string, f: string, g: string)
    ensures t + a + b + c + d + e + f + g == t + (a + b + c + d + e + f + g)
  {
    Assoc(t, a, b);
    Assoc(t, a + b, c);
    Assoc(t, a + b + c, d);
    Assoc(t, a + b + c + d, e);
    Assoc(t, a + b + c + d + e, f);
    Assoc(t, a + b + c + d + e + f, g);
  }

  method PushOptional(out: TextBuffer, tag: string, value: Option<string>, ghost rest: seq<Node>)
    modifies out
    ensures out.text + PrintAll(rest) == old(out.text) + PrintAll(Optional(tag, value) + rest)
  {
    if value.Some? {
      PushTextElement(out, tag, value.value, rest);
    } else {
      assert Optional(tag, value) + rest == rest;
    }
  }

  /** An element that only holds elements: its tags around the printed children. */
  lemma PrintBranch(text: string, tag: string, children: seq<Node>, inside: string)
    requires inside == text + ("<" + tag + ">") + PrintAll(children)
    ensures inside + "</" + tag + ">" == text + Print(Element(tag, [], children))
  {
    var open, kids, close := "<" + tag + ">", PrintAll(children), EndTag(tag);
    assert "<" + tag + "" == "<" + tag;
    assert Print(Element(tag, [], children)) == open + kids + close;
    Assoc(text, open, kids);
    Assoc(text, open + kids, close);
    Assoc(inside, "</", tag);
    Assoc(inside, "</" + tag, ">");
  }

  // ---------------------------------------------------------------- groups of fields

  method PushContact(out: TextBuffer, c: Contact, ghost rest: seq<Node>)
    modifies out
    ensures out.text + PrintAll(rest) == old(out.text) + PrintAll(ContactFields(c, rest))
  {
    hide Leaf, Optional, PrintAll;
    ghost var n1 := Optional("FacsimileNumber", c.facsimileNumber) + rest;
    ghost var n2 := Optional("TelephoneNumber", c.telephoneNumber) + n1;
    ghost var n3 := Optional("PersonInCharge", c.personInCharge) + n2;
    PushOptional(out, "Address", c.address, n3);
    PushOptional(out, "PersonInCharge", c.personInCharge, n2);
    PushOptional(out, "TelephoneNumber", c.telephoneNumber, n1);
    PushOptional(out, "FacsimileNumber", c.facsimileNumber, rest);
  }

  method PushReference(out: TextBuffer, r: Reference, ghost rest: seq<Node>)
    modifies out
    ensures out.text + PrintAll(rest) == old(out.text) + PrintAll(ReferenceFields(r, rest))
  {
    hide Leaf, Optional, PrintAll;
    ghost var n1 := Optional("RoleRemark", r.roleRemark) + rest;
    ghost var n2 := Optional("CustomerNumber", r.customerNumber) + n1;
    PushOptional(out, "EmailAddress", r.emailAddress, n2);
    PushOptional(out, "CustomerNumber", r.customerNumber, n1);
    PushOptional(out, "RoleRemark", r.roleRemark, rest);
  }

  method PushRemarks(out: TextBuffer, r: Remarks, ghost rest: seq<Node>)
    modifies out
    ensures out.text + PrintAll(rest) == old(out.text) + PrintAll(RemarksFields(r, rest))
  {
    hide Leaf, Optional, PrintAll;
    ghost var n1 := Optional("CustomsClearanceMark", r.customsMark) + rest;
    ghost var n2 := Optional("MainRemark", r.mainRemark) + n1;
    PushOptional(out, "BuyerRemark", r.buyerRemark, n2);
    PushOptional(out, "MainRemark", r.mainRemark, n1);
    PushOptional(out, "CustomsClearanceMark", r.customsMark, rest);
  }

  method PushRelation(out: TextBuffer, r: Relation, ghost rest: seq<Node>)
    modifies out
    ensures out.text + PrintAll(rest) == old(out.text) + PrintAll(RelationFields(r, rest))
  {
    hide Leaf, Optional, PrintAll;
    ghost var n1 := [Leaf("InvoiceType", r.invoiceType)] + rest;
    ghost var n2 := Optional("RelateNumber", r.relateNumber) + n1;
    PushOptional(out, "Category", r.category, n2);
    PushOptional(out, "RelateNumber", r.relateNumber, n1);
    PushTextElement(out, "InvoiceType", r.invoiceType, rest);
  }

  method PushCarrier(out: TextBuffer, c: Carrier, ghost rest: seq<Node>)
    modifies out
    ensures out.text + PrintAll(rest) == old(out.text) + PrintAll(CarrierFields(c, rest))
  {
    hide Leaf, Optional, PrintAll;
    ghost var n1 := [Leaf("PrintMark", c.printMark)] + rest;
    ghost var n2 := Optional("CarrierId2", c.carrierId2) + n1;
    ghost var n3 := Optional("CarrierId1", c.carrierId1) + n2;
    ghost var n4 := Optional("CarrierType", c.carrierType) + n3;
    ghost var n5 := [Leaf("DonateMark", c.donateMark)] + n4;
    PushOptional(out, "GroupMark", c.groupMark, n5);
    PushTextElement(out, "DonateMark", c.donateMark, n4);
    PushOptional(out, "CarrierType", c.carrierType, n3);
    PushOptional(out, "CarrierId1", c.carrierId1, n2);
    PushOptional(out, "CarrierId2", c.carrierId2, n1);
    PushTextElement(out, "PrintMark", c.printMark, rest);
  }

  method PushReceiver(out: TextBuffer, r: Receiver, ghost rest: seq<Node>)
    modifies out
    ensures out.text + PrintAll(rest) == old(out.text) + PrintAll(ReceiverFields(r, rest))
  {
    hide Leaf, Optional, PrintAll;
    ghost var n1 := Optional("BondedAreaConfirm", r.bondedArea) + rest;
    ghost var n2 := Optional("RandomNumber", r.randomNumber) + n1;
    PushOptional(out, "NPOBAN", r.npoBan, n2);
    PushOptional(out, "RandomNumber", r.randomNumber, n1);
    PushOptional(out, "BondedAreaConfirm", r.bondedArea, rest);
  }

  method PushReserve(out: TextBuffer, r: Reserve, ghost rest: seq<Node>)
    modifies out
    ensures out.text + PrintAll(rest) == old(out.text) + PrintAll(ReserveFields(r, rest))
  {
    hide Leaf, Optional, PrintAll;
    ghost var n1 := Optional("Reserved2", r.reserved2) + rest;
    ghost var n2 := Optional("Reserved1", r.reserved1) + n1;
    PushOptional(out, "ZeroTaxRateReason", r.zeroTaxRateReason, n2);
    PushOptional(out, "Reserved1", r.reserved1, n1);
    PushOptional(out, "Reserved2", r.reserved2, rest);
  }

  method PushItem(out: TextBuffer, p: ItemTexts)
    modifies out
    ensures out.text == old(out.text) + PrintAll(ItemFields(p))
  {
    hide Leaf, Optional, PrintAll;
    ghost var n0: seq<Node> := [];
    ghost var n1 := Optional("RelateNumber", p.relateNumber) + n0;
    ghost var n2 := Optional("Remark", p.remark) + n1;
    ghost var n3 := [Leaf("SequenceNumber", p.sequenceNumber)] + n2;
    ghost var n4 := [Leaf("Amount", p.amount)] + n3;
    ghost var n5 := [Leaf("TaxType", p.taxType)] + n4;
    ghost var n6 := [Leaf("UnitPrice", p.unitPrice)] + n5;
    ghost var n7 := Optional("Unit", p.unit) + n6;
    ghost var n8 := [Leaf("Quantity", p.quantity)] + n7;
    PushTextElement(out, "Description", p.description, n8);
    PushTextElement(out, "Quantity", p.quantity, n7);
    PushOptional(out, "Unit", p.unit, n6);
    PushTextElement(out, "UnitPrice", p.unitPrice, n5);
    PushTextElement(out, "TaxType", p.taxType, n4);
    PushTextElement(out, "Amount", p.amount, n3);
    PushTextElement(out, "SequenceNumber", p.sequenceNumber, n2);
    PushOptional(out, "Remark", p.remark, n1);
    PushOptional(out, "RelateNumber", p.relateNumber, n0);
    NothingPrinted(out.text);
  }

  method PushSums(out: TextBuffer, s: Sums, ghost rest: seq<Node>)
    modifies out
    ensures out.text + PrintAll(rest) == old(out.text) + PrintAll(SumsFields(s, rest))
  {
    hide Leaf, Optional, PrintAll;
    ghost var n1 := [Leaf("TotalAmount", s.totalAmount)] + rest;
    ghost var n2 := [Leaf("TaxAmount", s.taxAmount)] + n1;
    ghost var n3 := [Leaf("TaxRate", s.taxRate)] + n2;
    ghost var n4 := [Leaf("TaxType", s.taxType)] + n3;
    ghost var n5 := [Leaf("ZeroTaxSalesAmount", s.zeroTaxSalesAmount)] + n4;
    ghost var n6 := [Leaf("FreeTaxSalesAmount", s.freeTaxSalesAmount)] + n5;
    PushTextElement(out, "SalesAmount", s.salesAmount, n6);
    PushTextElement(out, "FreeTaxSalesAmount", s.freeTaxSalesAmount, n5);
    PushTextElement(out, "ZeroTaxSalesAmount", s.zeroTaxSalesAmount, n4);
    PushTextElement(out, "TaxType", s.taxType, n3);
    PushTextElement(out, "TaxRate", s.taxRate, n2);
    PushTextElement(out, "TaxAmount", s.taxAmount, n1);
    PushTextElement(out, "TotalAmount", s.totalAmount, rest);
  }

  method PushExtras(out: TextBuffer, e: Extras)
    modifies out
    ensures out.text == old(out.text) + PrintAll(ExtrasFields(e))
  {
    hide Leaf, Optional, PrintAll;
    ghost var n0: seq<Node> := [];
    ghost var n1 := Optional("Currency", e.currency) + n0;
    ghost var n2 := Optional("ExchangeRate", e.exchangeRate) + n1;
    ghost var n3 := Optional("OriginalCurrencyAmount", e.originalCurrencyAmount) + n2;
    PushOptional(out, "DiscountAmount", e.discountAmount, n3);
    PushOptional(out, "OriginalCurrencyAmount", e.originalCurrencyAmount, n2);
    PushOptional(out, "ExchangeRate", e.exchangeRate, n1);
    PushOptional(out, "Currency", e.currency, n0);
    NothingPrinted(out.text);
  }

  // ---------------------------------------------------------------- elements

  method PushRole(out: TextBuffer, tag: string, role: RoleDescription)
    modifies out
    ensures out.text == old(out.text) + Print(RoleNode(tag, role))
  {
    hide Leaf, Optional, Print, PrintAll, ContactFields, ReferenceFields;
    var contact := Contact(role.address, role.personInCharge, role.telephoneNumber, role.facsimileNumber);
    var reference := Reference(role.emailAddress, role.customerNumber, role.roleRemark);
    ghost var n3 := ReferenceFields(reference, []);
    ghost var n2 := ContactFields(contact, n3);
    out.PushStr("<" + tag + ">");
    PushTextElement(out, "Identifier", role.identifier, [Leaf("Name", role.name)] + n2);
    PushTextElement(out, "Name", role.name, n2);
    PushContact(out, contact, n3);
    PushReference(out, reference, []);
    NothingPrinted(out.text);
    PrintBranch(old(out.text), tag, RoleFields(role), out.text);
    out.PushStr("</");
    out.PushStr(tag);
    out.PushStr(">");
  }

  method PushIssue(out: TextBuffer, i: Issue, ghost rest: seq<Node>)
    modifies out
    ensures out.text + PrintAll(rest) == old(out.text) + PrintAll(IssueFields(i, rest))
  {
    hide Leaf, Print, PrintAll, RoleNode;
    ghost var n4 := [RoleNode("Buyer", i.buyer)] + rest;
    ghost var n3 := [RoleNode("Seller", i.seller)] + n4;
    ghost var n2 := [Leaf("InvoiceTime", i.time)] + n3;
    ghost var n1 := [Leaf("InvoiceDate", i.date)] + n2;
    PushTextElement(out, "InvoiceNumber", i.number, n1);
    PushTextElement(out, "InvoiceDate", i.date, n2);
    PushTextElement(out, "InvoiceTime", i.time, n3);
    PrintCons(out.text, RoleNode("Seller", i.seller), n4);
    PushRole(out, "Seller", i.seller);
    PrintCons(out.text, RoleNode("Buyer", i.buyer), rest);
    PushRole(out, "Buyer", i.buyer);
  }

  method PushMain(out: TextBuffer, main: Main)
    modifies out
    ensures out.text == old(out.text) + Print(MainNode(main))
  {
    hide Print, PrintAll;
    hide IssueFields, RemarksFields, RelationFields, CarrierFields, ReceiverFields, ReserveFields;
    var p := PartsOf(main);
    ghost var n5 := ReserveFields(p.reserve, []);
    ghost var n4 := ReceiverFields(p.receiver, n5);
    ghost var n3 := CarrierFields(p.carrier, n4);
    ghost var n2 := RelationFields(p.relation, n3);
    ghost var n1 := RemarksFields(p.remarks, n2);
    out.PushStr("<" + "Main" + ">");
    PushIssue(out, p.issue, n1);
    PushRemarks(out, p.remarks, n2);
    PushRelation(out, p.relation, n3);
    PushCarrier(out, p.carrier, n4);
    PushReceiver(out, p.receiver, n5);
    PushReserve(out, p.reserve, []);
    NothingPrinted(out.text);
    PrintBranch(old(out.text), "Main", PartFields(p), out.text);
    out.PushStr("</");
    out.PushStr("Main");
    out.PushStr(">");
  }

  method PushProductItem(out: TextBuffer, item: ProductItem)
    modifies out
    ensures out.text == old(out.text) + Print(ItemNode(item))
  {
    hide Print, PrintAll, ItemFields;
    out.PushStr("<" + "ProductItem" + ">");
    PushItem(out, ItemTextsOf(item));
    PrintBranch(old(out.text), "ProductItem", ItemFields(ItemTextsOf(item)), out.text);
    out.PushStr("</");
    out.PushStr("ProductItem");
    out.PushStr(">");
  }

  lemma {:induction false} ItemNodesAppend(items: seq<ProductItem>, item: ProductItem)
    ensures ItemNodes(items + [item]) == ItemNodes(items) + [ItemNode(item)]
  {
    hide ItemNode;
    if items != [] {
      assert (items + [item])[1..] == items[1..] + [item];
      ItemNodesAppend(items[1..], item);
    } else {
      assert items + [item] == [item];
    }
  }

  /** One more item printed after the items so far. */
  lemma PrintItem(text: string, items: seq<ProductItem>, item: ProductItem)
    ensures text + PrintAll(ItemNodes(items)) + Print(ItemNode(item)) == text + PrintAll(ItemNodes(items + [item]))
  {
    ItemNodesAppend(items, item);
    PrintAllConcat(ItemNodes(items), [ItemNode(item)]);
    PrintCons("", ItemNode(item), []);
    hide ItemNode, Print;
    assert [ItemNode(item)] + [] == [ItemNode(item)];
    assert "" + Print(ItemNode(item)) + PrintAll([]) == Print(ItemNode(item));
    Assoc(text, PrintAll(ItemNodes(items)), Print(ItemNode(item)));
  }

  method PushDetails(out: TextBuffer, details: seq<ProductItem>)
    modifies out
    ensures out.text == old(out.text) + Print(DetailsNode(details))
  {
    hide Print, PrintAll, ItemNode;
    ghost var start := old(out.text) + ("<" + "Details" + ">");
    out.PushStr("<" + "Details" + ">");
    NothingPrinted(out.text);
    for i := 0 to |details|
      invariant out.text == start + PrintAll(ItemNodes(details[..i]))
    {
      PrintItem(start, details[..i], details[i]);
      assert details[..i + 1] == details[..i] + [details[i]];
      PushProductItem(out, details[i]);
    }
    assert details[..|details|] == details;
    PrintBranch(old(out.text), "Details", ItemNodes(details), out.text);
    out.PushStr("</");
    out.PushStr("Details");
    out.PushStr(">");
  }

  method PushAmount(out: TextBuffer, amount: Amount)
    modifies out
    ensures out.text == old(out.text) + Print(AmountNode(amount))
  {
    hide Print, PrintAll, SumsFields, ExtrasFields;
    ghost var n1 := ExtrasFields(ExtrasOf(amount));
    out.PushStr("<" + "Amount" + ">");
    PushSums(out, SumsOf(amount), n1);
    PushExtras(out, ExtrasOf(amount));
    PrintBranch(old(out.text), "Amount", SumsFields(SumsOf(amount), n1), out.text);
    out.PushStr("</");
    out.PushStr("Amount");
    out.PushStr(">");
  }

  /** One attribute whose value needs no escaping. */
  lemma PrintAttribute(name: string, value: string)
    requires Escape(value) == value
    ensures "<" + "Invoice" + PrintAttributes([Attribute(name, value)]) + ">"
            == "<" + "Invoice" + (" " + name + "=\"" + value + "\"") + ">"
  {
    assert [Attribute(name, value)][1..] == [];
    assert PrintAttributes([]) == "";
    assert " " + name + "=\"" + value + "\"" + "" == " " + name + "=\"" + value + "\"";
  }

  lemma TagText(ns: string)
    ensures "<" + "Invoice" + (" " + "xmlns" + "=\"" + ns + "\"") + ">" == "<Invoice xmlns=\"" + ns + "\">"
  {
    var name := " " + "xmlns" + "=\"";
    Assoc("<" + "Invoice", name + ns, "\"");
    Assoc("<" + "Invoice", name, ns);
    assert "<" + "Invoice" + name == "<Invoice xmlns=\"";
    Assoc("<Invoice xmlns=\"" + ns, "\"", ">");
  }

  lemma PrintRoot(ns: string, a: Node, b: Node, c: Node)
    requires Escape(ns) == ns
    ensures Print(Element("Invoice", [Attribute("xmlns", ns)], [a, b, c])) ==
            "<Invoice xmlns=\"" + ns + "\">" + Print(a) + Print(b) + Print(c) + "</Invoice>"
  {
    PrintAttribute("xmlns", ns);
    TagText(ns);
    var open := "<" + "Invoice" + PrintAttributes([Attribute("xmlns", ns)]) + ">";
    assert EndTag("Invoice") == "</Invoice>";
    var node := Element("Invoice", [Attribute("xmlns", ns)], [a, b, c]);
    assert Print(node) == open + PrintAll([a, b, c]) + EndTag("Invoice");
    hide Print, PrintAttributes, PrintAll, EndTag, Escape;
    PrintThree(a, b, c);
    Assoc(open, Print(a) + Print(b), Print(c));
    Assoc(open, Print(a), Print(b));
  }

  lemma NamespaceIsPlain()
    ensures Escape(NAMESPACE) == NAMESPACE
  {
    EscapePlain(NAMESPACE);
  }

  lemma PrintInvoice(v: Invoice)
    ensures XmlText(v) == "<Invoice xmlns=\"" + NAMESPACE + "\">" + Print(MainNode(v.main))
                          + Print(DetailsNode(v.details)) + Print(AmountNode(v.amount)) + "</Invoice>"
  {
    hide Escape, Print, MainNode, DetailsNode, AmountNode;
    NamespaceIsPlain();
    PrintRoot(NAMESPACE, MainNode(v.main), DetailsNode(v.details), AmountNode(v.amount));
  }

  /** The text starts with the root tag, without a declaration, and ends with its end tag. */
  lemma XmlTextEnds(v: Invoice)
    ensures var s := XmlText(v); |s| > 2 && s[0] == '<' && s[1] == 'I' && s[|s| - 1] == '>'
  {
    PrintInvoice(v);
    hide XmlText, Print, MainNode, DetailsNode, AmountNode;
    Tagged(NAMESPACE + "\">" + Print(MainNode(v.main)) + Print(DetailsNode(v.details)) + Print(AmountNode(v.amount)));
    Assoc("<Invoice xmlns=\"", NAMESPACE, "\">");
    Assoc("<Invoice xmlns=\"", NAMESPACE + "\">", Print(MainNode(v.main)));
    Assoc("<Invoice xmlns=\"", NAMESPACE + "\">" + Print(MainNode(v.main)), Print(DetailsNode(v.details)));
    Assoc("<Invoice xmlns=\"", NAMESPACE + "\">" + Print(MainNode(v.main)) + Print(DetailsNode(v.details)),
          Print(AmountNode(v.amount)));
  }

  lemma Tagged(inside: string)
    ensures var s := "<Invoice xmlns=\"" + inside + "</Invoice>";
            |s| > 2 && s[0] == '<' && s[1] == 'I' && s[|s| - 1] == '>'
  {
  }

  lemma PrintThree(a: Node, b: Node, c: Node)
    ensures PrintAll([a, b, c]) == Print(a) + Print(b) + Print(c)
  {
    hide Print;
    assert [a, b, c][1..] == [b, c] && [b, c][1..] == [c] && [c][1..] == [];
    assert PrintAll([]) == "" && Print(c) + "" == Print(c);
    assert PrintAll([c]) == Print(c);
    assert PrintAll([b, c]) == Print(b) + Print(c);
    Assoc(Print(a), Print(b), Print(c));
  }

  /** `to_xml` prints exactly the tree of the invoice. */
  method ToXml(v: Invoice) returns (xml: string)
    ensures xml == XmlText(v)
  {
    hide XmlText, Print, MainNode, DetailsNode, AmountNode;
    var out := new TextBuffer();
    out.PushStr("<Invoice xmlns=\"");
    out.PushStr(NAMESPACE);
    out.PushStr("\">");
    assert out.text == "<Invoice xmlns=\"" + NAMESPACE + "\">";
    PrintInvoice(v);
    PushMain(out, v.main);
    PushDetails(out, v.details);
    PushAmount(out, v.amount);
    out.PushStr("</Invoice>");
    xml := out.text;
  }
}
