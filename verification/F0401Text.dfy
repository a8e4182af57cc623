/**
  The free text of an F0401 invoice.  Every other part of its XML is printable ASCII, so the
  XML is free of a class of other characters exactly when the text fields are.
 */
module F0401Text {
  import opened Wrappers
  import opened Primitives
  import opened Xml
  import opened XmlTree
  import opened F0401Document
  import opened F0401Tree
  import opened F0401MainTree
  import opened F0401InvoiceTree
  import opened F0401Xml
  import opened TextRewriting
  import Decimal

  type Class = char -> bool

  // ---------------------------------------------------------------- the text fields

  predicate OptionClear(s: Option<string>, bad: Class) { s.Some? ==> Clear(s.value, bad) }

  predicate RoleClear(r: RoleDescription, bad: Class) {
    && Clear(r.name, bad) && OptionClear(r.address, bad) && OptionClear(r.personInCharge, bad)
    && OptionClear(r.telephoneNumber, bad) && OptionClear(r.facsimileNumber, bad) && OptionClear(r.emailAddress, bad)
    && OptionClear(r.customerNumber, bad) && OptionClear(r.roleRemark, bad)
  }

  predicate MainClear(m: Main, bad: Class) {
    && RoleClear(m.seller, bad) && RoleClear(m.buyer, bad)
    && OptionClear(m.mainRemark, bad) && OptionClear(m.category, bad) && OptionClear(m.relateNumber, bad)
    && OptionClear(m.groupMark, bad) && OptionClear(m.carrierType, bad) && OptionClear(m.carrierId1, bad)
    && OptionClear(m.carrierId2, bad) && OptionClear(m.randomNumber, bad)
    && OptionClear(m.reserved1, bad) && OptionClear(m.reserved2, bad)
  }

  predicate ItemClear(p: ProductItem, bad: Class) {
    && Clear(p.description, bad) && OptionClear(p.unit, bad) && Clear(p.sequenceNumber, bad)
    && OptionClear(p.remark, bad) && OptionClear(p.relateNumber, bad)
  }

  predicate ItemsClear(items: seq<ProductItem>, bad: Class) {
    forall i :: 0 <= i < |items| ==> ItemClear(items[i], bad)
  }

  /** No text field of the invoice holds a character of the class. */
  predicate TextClear(v: Invoice, bad: Class) { MainClear(v.main, bad) && ItemsClear(v.details, bad) }

  // ---------------------------------------------------------------- rewriting the text fields

  function MapOption(s: Option<string>, f: Rewrite): Option<string> { if s.Some? then Some(f(s.value)) else None }

  function MapRole(r: RoleDescription, f: Rewrite): RoleDescription {
    r.(name := f(r.name), address := MapOption(r.address, f), personInCharge := MapOption(r.personInCharge, f),
       telephoneNumber := MapOption(r.telephoneNumber, f), facsimileNumber := MapOption(r.facsimileNumber, f),
       emailAddress := MapOption(r.emailAddress, f), customerNumber := MapOption(r.customerNumber, f),
       roleRemark := MapOption(r.roleRemark, f))
  }

  function MapMain(m: Main, f: Rewrite): Main {
    m.(seller := MapRole(m.seller, f), buyer := MapRole(m.buyer, f), mainRemark := MapOption(m.mainRemark, f),
       category := MapOption(m.category, f), relateNumber := MapOption(m.relateNumber, f),
       groupMark := MapOption(m.groupMark, f), carrierType := MapOption(m.carrierType, f),
       carrierId1 := MapOption(m.carrierId1, f), carrierId2 := MapOption(m.carrierId2, f),
       randomNumber := MapOption(m.randomNumber, f), reserved1 := MapOption(m.reserved1, f),
       reserved2 := MapOption(m.reserved2, f))
  }

  function MapItem(p: ProductItem, f: Rewrite): ProductItem {
    p.(description := f(p.description), unit := MapOption(p.unit, f), sequenceNumber := f(p.sequenceNumber),
       remark := MapOption(p.remark, f), relateNumber := MapOption(p.relateNumber, f))
  }

  function MapItems(items: seq<ProductItem>, f: Rewrite): (r: seq<ProductItem>)
    ensures |r| == |items| && forall i :: 0 <= i < |r| ==> r[i] == MapItem(items[i], f)
  {
    if items == [] then [] else [MapItem(items[0], f)] + MapItems(items[1..], f)
  }

  /** The invoice with `f` applied to its text fields. */
  function MapInvoice(v: Invoice, f: Rewrite): Invoice { Invoice(MapMain(v.main, f), MapItems(v.details, f), v.amount) }

  // ---------------------------------------------------------------- what is printable anyway

  predicate OptionPrintable(s: Option<string>) { s.Some? ==> Printable(s.value) }

  lemma DigitsArePrintable(s: string)
    requires Decimal.AllDigits(s)
    ensures Printable(s)
  {
  }

  lemma LexicalIsPrintable(ban: Ban, number: InvoiceNumber, date: MigDate, time: MigTime, currency: CurrencyCode)
    ensures Printable(ban) && Printable(number) && Printable(date) && Printable(time) && Printable(currency)
  {
    NumberIsPrintable(number);
    TimeIsPrintable(time);
  }

  lemma NumberIsPrintable(number: InvoiceNumber)
    ensures Printable(number)
  {
    assert number == [number[0], number[1]] + number[2..];
    DigitsArePrintable(number[2..]);
  }

  lemma TimeIsPrintable(time: MigTime)
    ensures Printable(time)
  {
    assert time == time[0..2] + ":" + time[3..5] + ":" + time[6..8];
    DigitsArePrintable(time[0..2]);
    DigitsArePrintable(time[3..5]);
    DigitsArePrintable(time[6..8]);
  }

  lemma PrintableConcat(a: string, b: string)
    requires Printable(a) && Printable(b)
    ensures Printable(a + b)
  {
  }

  lemma DecimalIsPrintable(s: MigDecimal)
    ensures Printable(s)
  {
    var d := ParsedDecimal(s, |s|, |s|, false);
    DigitsArePrintable(d.integer);
    var sign, tail := if d.negative then "-" else "", if d.fraction.Some? then "." + d.fraction.value else "";
    assert Printable(sign);
    if d.fraction.Some? {
      DigitsArePrintable(d.fraction.value);
      assert Printable(".");
      PrintableConcat(".", d.fraction.value);
    }
    hide Printable;
    PrintableConcat(sign, d.integer);
    PrintableConcat(sign + d.integer, tail);
  }

  lemma CodesArePrintable(m: Main)
    ensures OptionPrintable(Coded(m.buyerRemark, BuyerRemarkCode))
    ensures OptionPrintable(Coded(m.customsMark, CustomsMarkCode))
    ensures OptionPrintable(Coded(m.bondedArea, BondedAreaCode))
    ensures OptionPrintable(Coded(m.zeroTaxRateReason, ZeroTaxRateReasonCode))
    ensures Printable(InvoiceTypeCode(m.invoiceType)) && Printable(DonateMarkCode(m.donateMark))
    ensures Printable(PrintMarkCode(m.printMark)) && OptionPrintable(m.npoBan)
  {
    if m.zeroTaxRateReason.Some? {
      DigitsArePrintable(ZeroTaxRateReasonCode(m.zeroTaxRateReason.value));
    }
  }

  lemma TaxCodesArePrintable(t: TaxType, r: TaxRate)
    ensures Printable(TaxTypeCode(t)) && Printable(TaxRateCode(r))
  {
  }

  // ---------------------------------------------------------------- elements

  lemma IssueWords()
    ensures IsWord("InvoiceNumber") && IsWord("InvoiceDate") && IsWord("InvoiceTime")
    ensures IsWord("Seller") && IsWord("Buyer")
  {
  }

  lemma CarrierWords()
    ensures IsWord("GroupMark") && IsWord("DonateMark") && IsWord("CarrierType")
    ensures IsWord("CarrierId1") && IsWord("CarrierId2") && IsWord("PrintMark")
  {
  }

  lemma ContactWords()
    ensures IsWord("Address") && IsWord("PersonInCharge") && IsWord("TelephoneNumber") && IsWord("FacsimileNumber")
  {
  }

  lemma ReferenceWords()
    ensures IsWord("EmailAddress") && IsWord("CustomerNumber") && IsWord("RoleRemark")
    ensures IsWord("Identifier") && IsWord("Name")
  {
  }

  lemma MainWords()
    ensures IsWord("BuyerRemark") && IsWord("MainRemark") && IsWord("CustomsClearanceMark")
    ensures IsWord("Category") && IsWord("InvoiceType")
  {
  }

  lemma ReceiverWords()
    ensures IsWord("NPOBAN") && IsWord("RandomNumber") && IsWord("BondedAreaConfirm")
    ensures IsWord("ZeroTaxRateReason") && IsWord("Reserved1") && IsWord("Reserved2")
  {
  }

  lemma WordIsPrintable(s: string)
    requires IsWord(s)
    ensures Printable(s)
  {
  }

  lemma OptionFixed(s: Option<string>, f: Rewrite)
    requires Textual(f) && OptionPrintable(s)
    ensures MapOption(s, f) == s
  {
    hide Textual, Printable;
    if s.Some? {
      Fixed(s.value, f);
    }
  }

  lemma LeafMapped(tag: string, value: string, rest: seq<Node>, f: Rewrite)
    requires Textual(f) && IsWord(tag)
    ensures MapNodes([Leaf(tag, value)] + rest, f) == [Leaf(tag, f(value))] + MapNodes(rest, f)
  {
    hide Textual, IsWord, Printable;
    FirstNodeMapped(Leaf(tag, value), rest, f);
    WordIsPrintable(tag);
    Fixed(tag, f);
    EmptyOnly(value, f);
    if value != "" {
      FirstNodeMapped(Text(value), [], f);
      assert [Text(value)] + [] == [Text(value)] && MapNodes([], f) == [];
      assert MapNodes([Text(value)], f) == [Text(f(value))];
    }
  }

  lemma OptionalMapped(tag: string, value: Option<string>, rest: seq<Node>, f: Rewrite)
    requires Textual(f) && IsWord(tag)
    ensures MapNodes(Optional(tag, value) + rest, f) == Optional(tag, MapOption(value, f)) + MapNodes(rest, f)
  {
    hide Textual, IsWord, Leaf;
    if value.Some? {
      LeafMapped(tag, value.value, rest, f);
    } else {
      assert Optional(tag, value) + rest == rest;
    }
  }

  lemma BranchMapped(tag: string, children: seq<Node>, f: Rewrite)
    requires Textual(f) && IsWord(tag)
    ensures MapNode(Element(tag, [], children), f) == Element(tag, [], MapNodes(children, f))
  {
    hide Textual, IsWord, Printable;
    WordIsPrintable(tag);
    Fixed(tag, f);
  }

  lemma ContactMapped(c: Contact, rest: seq<Node>, f: Rewrite)
    requires Textual(f)
    ensures MapNodes(ContactFields(c, rest), f) ==
            ContactFields(Contact(MapOption(c.address, f), MapOption(c.personInCharge, f),
                                  MapOption(c.telephoneNumber, f), MapOption(c.facsimileNumber, f)),
                          MapNodes(rest, f))
  {
    hide Textual, MapNodes, MapOption, Optional, Leaf, IsWord;
    ContactWords();
    var n3 := Optional("FacsimileNumber", c.facsimileNumber) + rest;
    var n2 := Optional("TelephoneNumber", c.telephoneNumber) + n3;
    var n1 := Optional("PersonInCharge", c.personInCharge) + n2;
    OptionalMapped("FacsimileNumber", c.facsimileNumber, rest, f);
    OptionalMapped("TelephoneNumber", c.telephoneNumber, n3, f);
    OptionalMapped("PersonInCharge", c.personInCharge, n2, f);
    OptionalMapped("Address", c.address, n1, f);
  }

  lemma ReferenceMapped(r: Reference, rest: seq<Node>, f: Rewrite)
    requires Textual(f)
    ensures MapNodes(ReferenceFields(r, rest), f) ==
            ReferenceFields(Reference(MapOption(r.emailAddress, f), MapOption(r.customerNumber, f),
                                      MapOption(r.roleRemark, f)), MapNodes(rest, f))
  {
    hide Textual, MapNodes, MapOption, Optional, Leaf, IsWord;
    ReferenceWords();
    var n2 := Optional("RoleRemark", r.roleRemark) + rest;
    var n1 := Optional("CustomerNumber", r.customerNumber) + n2;
    OptionalMapped("RoleRemark", r.roleRemark, rest, f);
    OptionalMapped("CustomerNumber", r.customerNumber, n2, f);
    OptionalMapped("EmailAddress", r.emailAddress, n1, f);
  }

  lemma RoleHeadMapped(identifier: string, name: string, rest: seq<Node>, f: Rewrite)
    requires Textual(f) && Printable(identifier)
    ensures MapNodes([Leaf("Identifier", identifier)] + ([Leaf("Name", name)] + rest), f) ==
            [Leaf("Identifier", identifier)] + ([Leaf("Name", f(name))] + MapNodes(rest, f))
  {
    hide Textual, MapNodes, Leaf, IsWord, Printable;
    ReferenceWords();
    Fixed(identifier, f);
    LeafMapped("Name", name, rest, f);
    LeafMapped("Identifier", identifier, [Leaf("Name", name)] + rest, f);
  }

  lemma BanIsPrintable(ban: Ban)
    ensures Printable(ban)
  {
  }

  lemma NoNodesMapped(f: Rewrite)
    ensures MapNodes([], f) == []
  {
  }

  lemma RoleMapped(tag: string, r: RoleDescription, rest: seq<Node>, f: Rewrite)
    requires Textual(f) && IsWord(tag)
    ensures MapNodes([RoleNode(tag, r)] + rest, f) == [RoleNode(tag, MapRole(r, f))] + MapNodes(rest, f)
  {
    hide Textual, MapNode, MapNodes, MapOption, IsWord, Printable, Leaf, ContactFields, ReferenceFields;
    var contact := Contact(r.address, r.personInCharge, r.telephoneNumber, r.facsimileNumber);
    var reference := Reference(r.emailAddress, r.customerNumber, r.roleRemark);
    FirstNodeMapped(RoleNode(tag, r), rest, f);
    NoNodesMapped(f);
    ReferenceMapped(reference, [], f);
    ContactMapped(contact, ReferenceFields(reference, []), f);
    BanIsPrintable(r.identifier);
    RoleHeadMapped(r.identifier, r.name, ContactFields(contact, ReferenceFields(reference, [])), f);
    BranchMapped(tag, RoleFields(r), f);
  }

  lemma IssueMapped(i: Issue, rest: seq<Node>, f: Rewrite)
    requires Textual(f) && Printable(i.number) && Printable(i.date) && Printable(i.time)
    ensures MapNodes(IssueFields(i, rest), f) ==
            IssueFields(i.(seller := MapRole(i.seller, f), buyer := MapRole(i.buyer, f)), MapNodes(rest, f))
  {
    hide Textual, MapNodes, MapOption, Optional, Leaf, IsWord, Printable, RoleNode, MapRole;
    IssueWords();
    Fixed(i.number, f);
    Fixed(i.date, f);
    Fixed(i.time, f);
    var n4 := [RoleNode("Buyer", i.buyer)] + rest;
    var n3 := [RoleNode("Seller", i.seller)] + n4;
    var n2 := [Leaf("InvoiceTime", i.time)] + n3;
    var n1 := [Leaf("InvoiceDate", i.date)] + n2;
    RoleMapped("Buyer", i.buyer, rest, f);
    RoleMapped("Seller", i.seller, n4, f);
    LeafMapped("InvoiceTime", i.time, n3, f);
    LeafMapped("InvoiceDate", i.date, n2, f);
    LeafMapped("InvoiceNumber", i.number, n1, f);
  }

  lemma RemarksMapped(r: Remarks, rest: seq<Node>, f: Rewrite)
    requires Textual(f) && OptionPrintable(r.buyerRemark) && OptionPrintable(r.customsMark)
    ensures MapNodes(RemarksFields(r, rest), f) ==
            RemarksFields(r.(mainRemark := MapOption(r.mainRemark, f)), MapNodes(rest, f))
  {
    hide Textual, MapNodes, MapOption, Optional, Leaf, IsWord, OptionPrintable;
    MainWords();
    OptionFixed(r.buyerRemark, f);
    OptionFixed(r.customsMark, f);
    var n2 := Optional("CustomsClearanceMark", r.customsMark) + rest;
    var n1 := Optional("MainRemark", r.mainRemark) + n2;
    OptionalMapped("CustomsClearanceMark", r.customsMark, rest, f);
    OptionalMapped("MainRemark", r.mainRemark, n2, f);
    OptionalMapped("BuyerRemark", r.buyerRemark, n1, f);
  }

  lemma RelationMapped(r: Relation, rest: seq<Node>, f: Rewrite)
    requires Textual(f) && Printable(r.invoiceType)
    ensures MapNodes(RelationFields(r, rest), f) ==
            RelationFields(r.(category := MapOption(r.category, f), relateNumber := MapOption(r.relateNumber, f)),
                           MapNodes(rest, f))
  {
    hide Textual, MapNodes, MapOption, Optional, Leaf, IsWord, Printable;
    MainWords();
    RemarkWords();
    Fixed(r.invoiceType, f);
    var n2 := [Leaf("InvoiceType", r.invoiceType)] + rest;
    var n1 := Optional("RelateNumber", r.relateNumber) + n2;
    LeafMapped("InvoiceType", r.invoiceType, rest, f);
    OptionalMapped("RelateNumber", r.relateNumber, n2, f);
    OptionalMapped("Category", r.category, n1, f);
  }

  lemma CarrierMapped(c: Carrier, rest: seq<Node>, f: Rewrite)
    requires Textual(f) && Printable(c.donateMark) && Printable(c.printMark)
    ensures MapNodes(CarrierFields(c, rest), f) ==
            CarrierFields(c.(groupMark := MapOption(c.groupMark, f), carrierType := MapOption(c.carrierType, f),
                             carrierId1 := MapOption(c.carrierId1, f), carrierId2 := MapOption(c.carrierId2, f)),
                          MapNodes(rest, f))
  {
    hide Textual, MapNodes, MapOption, Optional, Leaf, IsWord, Printable;
    CarrierWords();
    Fixed(c.donateMark, f);
    Fixed(c.printMark, f);
    var n5 := [Leaf("PrintMark", c.printMark)] + rest;
    var n4 := Optional("CarrierId2", c.carrierId2) + n5;
    var n3 := Optional("CarrierId1", c.carrierId1) + n4;
    var n2 := Optional("CarrierType", c.carrierType) + n3;
    var n1 := [Leaf("DonateMark", c.donateMark)] + n2;
    LeafMapped("PrintMark", c.printMark, rest, f);
    OptionalMapped("CarrierId2", c.carrierId2, n5, f);
    OptionalMapped("CarrierId1", c.carrierId1, n4, f);
    OptionalMapped("CarrierType", c.carrierType, n3, f);
    LeafMapped("DonateMark", c.donateMark, n2, f);
    OptionalMapped("GroupMark", c.groupMark, n1, f);
  }

  lemma ReceiverMapped(r: Receiver, rest: seq<Node>, f: Rewrite)
    requires Textual(f) && OptionPrintable(r.npoBan) && OptionPrintable(r.bondedArea)
    ensures MapNodes(ReceiverFields(r, rest), f) ==
            ReceiverFields(r.(randomNumber := MapOption(r.randomNumber, f)), MapNodes(rest, f))
  {
    hide Textual, MapNodes, MapOption, Optional, Leaf, IsWord, OptionPrintable;
    ReceiverWords();
    OptionFixed(r.npoBan, f);
    OptionFixed(r.bondedArea, f);
    var n2 := Optional("BondedAreaConfirm", r.bondedArea) + rest;
    var n1 := Optional("RandomNumber", r.randomNumber) + n2;
    OptionalMapped("BondedAreaConfirm", r.bondedArea, rest, f);
    OptionalMapped("RandomNumber", r.randomNumber, n2, f);
    OptionalMapped("NPOBAN", r.npoBan, n1, f);
  }

  lemma ReserveMapped(r: Reserve, rest: seq<Node>, f: Rewrite)
    requires Textual(f) && OptionPrintable(r.zeroTaxRateReason)
    ensures MapNodes(ReserveFields(r, rest), f) ==
            ReserveFields(r.(reserved1 := MapOption(r.reserved1, f), reserved2 := MapOption(r.reserved2, f)),
                          MapNodes(rest, f))
  {
    hide Textual, MapNodes, MapOption, Optional, Leaf, IsWord, OptionPrintable;
    ReceiverWords();
    OptionFixed(r.zeroTaxRateReason, f);
    var n2 := Optional("Reserved2", r.reserved2) + rest;
    var n1 := Optional("Reserved1", r.reserved1) + n2;
    OptionalMapped("Reserved2", r.reserved2, rest, f);
    OptionalMapped("Reserved1", r.reserved1, n2, f);
    OptionalMapped("ZeroTaxRateReason", r.zeroTaxRateReason, n1, f);
  }

  function MapParts(p: Parts, f: Rewrite): Parts {
    Parts(p.issue.(seller := MapRole(p.issue.seller, f), buyer := MapRole(p.issue.buyer, f)),
          p.remarks.(mainRemark := MapOption(p.remarks.mainRemark, f)),
          p.relation.(category := MapOption(p.relation.category, f),
                      relateNumber := MapOption(p.relation.relateNumber, f)),
          p.carrier.(groupMark := MapOption(p.carrier.groupMark, f), carrierType := MapOption(p.carrier.carrierType, f),
                     carrierId1 := MapOption(p.carrier.carrierId1, f),
                     carrierId2 := MapOption(p.carrier.carrierId2, f)),
          p.receiver.(randomNumber := MapOption(p.receiver.randomNumber, f)),
          p.reserve.(reserved1 := MapOption(p.reserve.reserved1, f), reserved2 := MapOption(p.reserve.reserved2, f)))
  }

  lemma PartsMapped(m: Main, f: Rewrite)
    ensures PartsOf(MapMain(m, f)) == MapParts(PartsOf(m), f)
  {
    hide MapRole, MapOption, Coded;
  }

  /** The codes and lexical values among the parts. */
  predicate PartsPrintable(p: Parts) {
    && Printable(p.issue.number) && Printable(p.issue.date) && Printable(p.issue.time)
    && OptionPrintable(p.remarks.buyerRemark) && OptionPrintable(p.remarks.customsMark)
    && Printable(p.relation.invoiceType) && Printable(p.carrier.donateMark) && Printable(p.carrier.printMark)
    && OptionPrintable(p.receiver.npoBan) && OptionPrintable(p.receiver.bondedArea)
    && OptionPrintable(p.reserve.zeroTaxRateReason)
  }

  lemma PartsArePrintable(m: Main)
    ensures PartsPrintable(PartsOf(m))
  {
    hide Printable, OptionPrintable, Coded, InvoiceTypeCode, DonateMarkCode, PrintMarkCode;
    LexicalIsPrintable("00000000", m.invoiceNumber, m.invoiceDate, m.invoiceTime, "AAA");
    CodesArePrintable(m);
  }

  lemma PartFieldsMapped(p: Parts, f: Rewrite)
    requires Textual(f) && PartsPrintable(p)
    ensures MapNodes(PartFields(p), f) == PartFields(MapParts(p, f))
  {
    hide Textual, MapNodes, MapOption, MapRole, Printable, OptionPrintable;
    hide IssueFields, RemarksFields, RelationFields, CarrierFields, ReceiverFields, ReserveFields;
    var n5 := ReserveFields(p.reserve, []);
    var n4 := ReceiverFields(p.receiver, n5);
    var n3 := CarrierFields(p.carrier, n4);
    var n2 := RelationFields(p.relation, n3);
    var n1 := RemarksFields(p.remarks, n2);
    NoNodesMapped(f);
    ReserveMapped(p.reserve, [], f);
    ReceiverMapped(p.receiver, n5, f);
    CarrierMapped(p.carrier, n4, f);
    RelationMapped(p.relation, n3, f);
    RemarksMapped(p.remarks, n2, f);
    IssueMapped(p.issue, n1, f);
  }

  lemma MainNodeMapped(m: Main, f: Rewrite)
    requires Textual(f)
    ensures MapNode(MainNode(m), f) == MainNode(MapMain(m, f))
  {
    hide Textual, MapNode, MapNodes, PartsOf, PartFields, MapMain, MapParts, PartsPrintable, IsWord;
    BranchWords();
    PartsArePrintable(m);
    PartsMapped(m, f);
    PartFieldsMapped(PartsOf(m), f);
    BranchMapped("Main", PartFields(PartsOf(m)), f);
  }

  lemma ItemFieldsMapped(t: ItemTexts, f: Rewrite)
    requires Textual(f)
    requires Printable(t.quantity) && Printable(t.unitPrice) && Printable(t.amount) && Printable(t.taxType)
    ensures MapNodes(ItemFields(t), f) ==
            ItemFields(t.(description := f(t.description), unit := MapOption(t.unit, f),
                          sequenceNumber := f(t.sequenceNumber), remark := MapOption(t.remark, f),
                          relateNumber := MapOption(t.relateNumber, f)))
  {
    hide Textual, MapNodes, MapOption, Optional, Leaf, IsWord, Printable;
    var rest: seq<Node> := [];
    ItemWords();
    TaxWords();
    RemarkWords();
    NoNodesMapped(f);
    Fixed(t.quantity, f);
    Fixed(t.unitPrice, f);
    Fixed(t.taxType, f);
    Fixed(t.amount, f);
    var n8 := Optional("RelateNumber", t.relateNumber) + rest;
    var n7 := Optional("Remark", t.remark) + n8;
    var n6 := [Leaf("SequenceNumber", t.sequenceNumber)] + n7;
    var n5 := [Leaf("Amount", t.amount)] + n6;
    var n4 := [Leaf("TaxType", t.taxType)] + n5;
    var n3 := [Leaf("UnitPrice", t.unitPrice)] + n4;
    var n2 := Optional("Unit", t.unit) + n3;
    var n1 := [Leaf("Quantity", t.quantity)] + n2;
    OptionalMapped("RelateNumber", t.relateNumber, rest, f);
    OptionalMapped("Remark", t.remark, n8, f);
    LeafMapped("SequenceNumber", t.sequenceNumber, n7, f);
    LeafMapped("Amount", t.amount, n6, f);
    LeafMapped("TaxType", t.taxType, n5, f);
    LeafMapped("UnitPrice", t.unitPrice, n4, f);
    OptionalMapped("Unit", t.unit, n3, f);
    LeafMapped("Quantity", t.quantity, n2, f);
    LeafMapped("Description", t.description, n1, f);
  }

  lemma ItemNodeMapped(p: ProductItem, f: Rewrite)
    requires Textual(f)
    ensures MapNode(ItemNode(p), f) == ItemNode(MapItem(p, f))
  {
    hide Textual, MapNode, MapNodes, MapOption, Printable, IsDecimal, ItemFields, TaxTypeCode, IsWord;
    BranchWords();
    DecimalIsPrintable(p.quantity);
    DecimalIsPrintable(p.unitPrice);
    DecimalIsPrintable(p.amount);
    TaxCodesArePrintable(p.taxType, Zero);
    ItemFieldsMapped(ItemTextsOf(p), f);
    BranchMapped("ProductItem", ItemFields(ItemTextsOf(p)), f);
  }

  lemma {:induction false} ItemNodesMapped(items: seq<ProductItem>, f: Rewrite)
    requires Textual(f)
    ensures MapNodes(ItemNodes(items), f) == ItemNodes(MapItems(items, f))
  {
    hide Textual, MapNode, ItemNode, MapItem;
    if items != [] {
      ItemNodeMapped(items[0], f);
      ItemNodesMapped(items[1..], f);
      FirstNodeMapped(ItemNode(items[0]), ItemNodes(items[1..]), f);
      assert MapItems(items, f)[1..] == MapItems(items[1..], f);
    }
  }

  lemma AmountsArePrintable(a: Amount)
    ensures Printable(a.salesAmount) && Printable(a.freeTaxSalesAmount) && Printable(a.zeroTaxSalesAmount)
    ensures Printable(a.taxAmount) && Printable(a.totalAmount)
    ensures OptionPrintable(a.discountAmount) && OptionPrintable(a.originalCurrencyAmount)
    ensures OptionPrintable(a.exchangeRate) && OptionPrintable(a.currency)
  {
    hide Printable, IsDecimal;
    DecimalIsPrintable(a.salesAmount);
    DecimalIsPrintable(a.freeTaxSalesAmount);
    DecimalIsPrintable(a.zeroTaxSalesAmount);
    DecimalIsPrintable(a.taxAmount);
    DecimalIsPrintable(a.totalAmount);
    OptionalDecimalIsPrintable(a.discountAmount);
    OptionalDecimalIsPrintable(a.originalCurrencyAmount);
    OptionalDecimalIsPrintable(a.exchangeRate);
    if a.currency.Some? {
      CurrencyIsPrintable(a.currency.value);
    }
  }

  lemma CurrencyIsPrintable(s: CurrencyCode)
    ensures Printable(s)
  {
  }

  lemma OptionalDecimalIsPrintable(s: Option<MigDecimal>)
    ensures OptionPrintable(s)
  {
    if s.Some? {
      DecimalIsPrintable(s.value);
    }
  }

  lemma ExtraWords()
    ensures IsWord("Currency") && IsWord("ExchangeRate") && IsWord("OriginalCurrencyAmount") && IsWord("DiscountAmount")
  {
  }

  lemma ExtrasMapped(e: Extras, f: Rewrite)
    requires Textual(f) && OptionPrintable(e.discountAmount) && OptionPrintable(e.originalCurrencyAmount)
    requires OptionPrintable(e.exchangeRate) && OptionPrintable(e.currency)
    ensures MapNodes(ExtrasFields(e), f) ==
            ExtrasFields(e)
  {
    hide Textual, MapNodes, MapOption, Optional, Leaf, IsWord, OptionPrintable;
    var rest: seq<Node> := [];
    ExtraWords();
    NoNodesMapped(f);
    OptionFixed(e.discountAmount, f);
    OptionFixed(e.originalCurrencyAmount, f);
    OptionFixed(e.exchangeRate, f);
    OptionFixed(e.currency, f);
    var n3 := Optional("Currency", e.currency) + rest;
    var n2 := Optional("ExchangeRate", e.exchangeRate) + n3;
    var n1 := Optional("OriginalCurrencyAmount", e.originalCurrencyAmount) + n2;
    OptionalMapped("Currency", e.currency, rest, f);
    OptionalMapped("ExchangeRate", e.exchangeRate, n3, f);
    OptionalMapped("OriginalCurrencyAmount", e.originalCurrencyAmount, n2, f);
    OptionalMapped("DiscountAmount", e.discountAmount, n1, f);
  }

  predicate SumsPrintable(s: Sums) {
    && Printable(s.salesAmount) && Printable(s.freeTaxSalesAmount) && Printable(s.zeroTaxSalesAmount)
    && Printable(s.taxType) && Printable(s.taxRate) && Printable(s.taxAmount) && Printable(s.totalAmount)
  }

  lemma SumsMapped(s: Sums, rest: seq<Node>, f: Rewrite)
    requires Textual(f) && SumsPrintable(s)
    ensures MapNodes(SumsFields(s, rest), f) ==
            SumsFields(s, MapNodes(rest, f))
  {
    hide Textual, MapNodes, MapOption, Optional, Leaf, IsWord, Printable;
    AmountWords();
    TaxWords();
    Fixed(s.salesAmount, f);
    Fixed(s.freeTaxSalesAmount, f);
    Fixed(s.zeroTaxSalesAmount, f);
    Fixed(s.taxType, f);
    Fixed(s.taxRate, f);
    Fixed(s.taxAmount, f);
    Fixed(s.totalAmount, f);
    var n6 := [Leaf("TotalAmount", s.totalAmount)] + rest;
    var n5 := [Leaf("TaxAmount", s.taxAmount)] + n6;
    var n4 := [Leaf("TaxRate", s.taxRate)] + n5;
    var n3 := [Leaf("TaxType", s.taxType)] + n4;
    var n2 := [Leaf("ZeroTaxSalesAmount", s.zeroTaxSalesAmount)] + n3;
    var n1 := [Leaf("FreeTaxSalesAmount", s.freeTaxSalesAmount)] + n2;
    LeafMapped("TotalAmount", s.totalAmount, rest, f);
    LeafMapped("TaxAmount", s.taxAmount, n6, f);
    LeafMapped("TaxRate", s.taxRate, n5, f);
    LeafMapped("TaxType", s.taxType, n4, f);
    LeafMapped("ZeroTaxSalesAmount", s.zeroTaxSalesAmount, n3, f);
    LeafMapped("FreeTaxSalesAmount", s.freeTaxSalesAmount, n2, f);
    LeafMapped("SalesAmount", s.salesAmount, n1, f);
  }

  lemma AmountNodeMapped(a: Amount, f: Rewrite)
    requires Textual(f)
    ensures MapNode(AmountNode(a), f) == AmountNode(a)
  {
    hide Textual, MapNode, MapNodes, Printable, OptionPrintable, IsDecimal, SumsFields, ExtrasFields, IsWord;
    hide TaxTypeCode, TaxRateCode;
    BranchWords();
    AmountsArePrintable(a);
    TaxCodesArePrintable(a.taxType, a.taxRate);
    ExtrasMapped(ExtrasOf(a), f);
    SumsMapped(SumsOf(a), ExtrasFields(ExtrasOf(a)), f);
    BranchMapped("Amount", SumsFields(SumsOf(a), ExtrasFields(ExtrasOf(a))), f);
  }

  lemma NamespaceIsPrintable()
    ensures Printable(NAMESPACE)
  {
  }

  lemma RootMapped(a: Node, b: Node, c: Node, f: Rewrite)
    requires Textual(f)
    ensures MapNode(Element("Invoice", ROOT_ATTRIBUTES, [a, b, c]), f) ==
            Element("Invoice", ROOT_ATTRIBUTES, [MapNode(a, f), MapNode(b, f), MapNode(c, f)])
  {
    hide Textual, Printable, IsWord;
    NamespaceIsPrintable();
    BranchWords();
    WordIsPrintable("Invoice");
    WordIsPrintable("xmlns");
    Fixed("Invoice", f);
    Fixed("xmlns", f);
    Fixed(NAMESPACE, f);
    assert ROOT_ATTRIBUTES[1..] == [] && MapAttributes([], f) == [];
    assert MapAttributes(ROOT_ATTRIBUTES, f) == ROOT_ATTRIBUTES;
    ThreeMapped(a, b, c, f);
    hide MapNodes;
  }

  lemma ThreeMapped(a: Node, b: Node, c: Node, f: Rewrite)
    ensures MapNodes([a, b, c], f) == [MapNode(a, f), MapNode(b, f), MapNode(c, f)]
  {
    hide MapNode;
    assert [a, b, c][1..] == [b, c] && [b, c][1..] == [c] && [c][1..] == [];
    assert MapNodes([c], f) == [MapNode(c, f)];
    assert MapNodes([b, c], f) == [MapNode(b, f), MapNode(c, f)];
  }

  // ---------------------------------------------------------------- main results

  lemma BranchWords()
    ensures IsWord("Details") && IsWord("Main") && IsWord("Amount") && IsWord("ProductItem")
    ensures IsWord("Invoice") && IsWord("xmlns")
  {
  }

  lemma InvoiceNodeMapped(v: Invoice, f: Rewrite)
    requires Textual(f)
    ensures MapNode(InvoiceNode(v), f) == InvoiceNode(MapInvoice(v, f))
  {
    hide Textual, MapNode, MapNodes, MainNode, AmountNode, ItemNodes, MapMain, MapItems, IsWord;
    BranchWords();
    MainNodeMapped(v.main, f);
    ItemNodesMapped(v.details, f);
    BranchMapped("Details", ItemNodes(v.details), f);
    AmountNodeMapped(v.amount, f);
    RootMapped(MainNode(v.main), DetailsNode(v.details), AmountNode(v.amount), f);
  }

  /** Rewriting the XML is rewriting the text fields: nothing else in it can be affected. */
  lemma XmlMapped(v: Invoice, f: Rewrite)
    requires Textual(f)
    ensures f(XmlText(v)) == XmlText(MapInvoice(v, f))
  {
    hide Textual, WellFormed, Print, InvoiceNode, MapInvoice, MapNode;
    InvoiceWellFormed(v);
    PrintRewritten(InvoiceNode(v), f);
    InvoiceNodeMapped(v, f);
  }

  /** The XML is unaffected exactly when the invoice is. */
  lemma XmlUnchangedExactly(v: Invoice, f: Rewrite)
    requires Textual(f)
    ensures f(XmlText(v)) == XmlText(v) <==> MapInvoice(v, f) == v
  {
    hide Textual, XmlText, MapInvoice;
    XmlMapped(v, f);
    XmlTextInjective(v, MapInvoice(v, f));
  }

  lemma OptionMaskedExactly(s: Option<string>, bad: Class)
    requires Foreign(bad)
    ensures MapOption(s, Mask(bad)) == s <==> OptionClear(s, bad)
  {
    hide Foreign, Clear, Masked;
    if s.Some? {
      MaskedExactly(s.value, bad);
    }
  }

  lemma RoleMaskedExactly(r: RoleDescription, bad: Class)
    requires Foreign(bad)
    ensures MapRole(r, Mask(bad)) == r <==> RoleClear(r, bad)
  {
    hide Foreign, Clear, Masked, MapOption, OptionClear;
    MaskedExactly(r.name, bad);
    OptionMaskedExactly(r.address, bad);
    OptionMaskedExactly(r.personInCharge, bad);
    OptionMaskedExactly(r.telephoneNumber, bad);
    OptionMaskedExactly(r.facsimileNumber, bad);
    OptionMaskedExactly(r.emailAddress, bad);
    OptionMaskedExactly(r.customerNumber, bad);
    OptionMaskedExactly(r.roleRemark, bad);
  }

  lemma MainMaskedExactly(m: Main, bad: Class)
    requires Foreign(bad)
    ensures MapMain(m, Mask(bad)) == m <==> MainClear(m, bad)
  {
    hide Foreign, Mask, MapOption, OptionClear, MapRole, RoleClear;
    RoleMaskedExactly(m.seller, bad);
    RoleMaskedExactly(m.buyer, bad);
    OptionMaskedExactly(m.mainRemark, bad);
    OptionMaskedExactly(m.category, bad);
    OptionMaskedExactly(m.relateNumber, bad);
    OptionMaskedExactly(m.groupMark, bad);
    OptionMaskedExactly(m.carrierType, bad);
    OptionMaskedExactly(m.carrierId1, bad);
    OptionMaskedExactly(m.carrierId2, bad);
    OptionMaskedExactly(m.randomNumber, bad);
    OptionMaskedExactly(m.reserved1, bad);
    OptionMaskedExactly(m.reserved2, bad);
  }

  lemma ItemMaskedExactly(p: ProductItem, bad: Class)
    requires Foreign(bad)
    ensures MapItem(p, Mask(bad)) == p <==> ItemClear(p, bad)
  {
    hide Foreign, Clear, Masked, MapOption, OptionClear;
    MaskedExactly(p.description, bad);
    MaskedExactly(p.sequenceNumber, bad);
    OptionMaskedExactly(p.unit, bad);
    OptionMaskedExactly(p.remark, bad);
    OptionMaskedExactly(p.relateNumber, bad);
  }

  lemma ItemsMaskedExactly(items: seq<ProductItem>, bad: Class)
    requires Foreign(bad)
    ensures MapItems(items, Mask(bad)) == items <==> ItemsClear(items, bad)
  {
    hide Foreign, Mask, MapItem, ItemClear;
    forall i | 0 <= i < |items|
      ensures MapItem(items[i], Mask(bad)) == items[i] <==> ItemClear(items[i], bad)
    {
      ItemMaskedExactly(items[i], bad);
    }
  }

  lemma TextMaskedExactly(v: Invoice, bad: Class)
    requires Foreign(bad)
    ensures MapInvoice(v, Mask(bad)) == v <==> TextClear(v, bad)
  {
    hide Foreign, Mask, MapMain, MapItems, MainClear, ItemsClear;
    MainMaskedExactly(v.main, bad);
    ItemsMaskedExactly(v.details, bad);
  }

  /** The XML holds a character of a class outside printable ASCII exactly when a text field does. */
  lemma XmlClearExactly(v: Invoice, bad: Class)
    requires Foreign(bad)
    ensures Clear(XmlText(v), bad) <==> TextClear(v, bad)
  {
    hide Foreign, Clear, Textual, XmlText, TextClear, MapInvoice;
    MaskIsTextual(bad);
    MaskedExactly(XmlText(v), bad);
    XmlUnchangedExactly(v, Mask(bad));
    TextMaskedExactly(v, bad);
  }
}
