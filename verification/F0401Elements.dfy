/**
  The F0401 document spelled out: the elements of each part in document order, with the texts
  of the wire codes.
 */
module F0401Elements {
  import opened Wrappers
  import opened Primitives
  import opened Xml
  import opened XmlTree
  import opened F0401Document
  import opened F0401Tree
  import opened F0401MainTree
  import opened F0401InvoiceTree
  import opened F0401Xml
  import Decimal

  // ---------------------------------------------------------------- codes

  const TAX_TYPES := map[Taxable := "1", ZeroRated := "2", TaxFree := "3", SpecialTax := "4", Mixed := "9"]

  const TAX_RATES := map[Zero := "0", OnePercent := "0.01", TwoPercent := "0.02", FivePercent := "0.05",
                         FifteenPercent := "0.15", TwentyFivePercent := "0.25"]

  const BUYER_REMARKS := map[DeductibleExpense := "1", DeductibleFixedAsset := "2", NonDeductibleExpense := "3",
                             NonDeductibleFixedAsset := "4"]

  const CUSTOMS_MARKS := map[NotThroughCustoms := "1", ThroughCustoms := "2"]

  const BONDED_AREAS := map[Article7Paragraph4 := "1", Article7Paragraph7 := "2", FreeTradeZone := "3",
                            OtherArea := "4"]

  const INVOICE_TYPES := map[GeneralTax := "07", SpecialTaxInvoice := "08"]

  /** The text of an optional code. */
  function Found<T(==)>(codes: map<T, string>, value: Option<T>): Option<string> {
    match value
    case None => None
    case Some(v) => if v in codes then Some(codes[v]) else None
  }

  /** Two digits, from 71 to 79. */
  function ReasonText(v: Option<ZeroTaxRateReason>): Option<string> {
    match v
    case None => None
    case Some(n) => Some(['7', ('0' as int + n - 70) as char])
  }

  lemma TaxTypeFound(v: TaxType)
    ensures Found(TAX_TYPES, Some(v)) == Some(TaxTypeCode(v))
  {
  }

  lemma TaxRateFound(v: TaxRate)
    ensures Found(TAX_RATES, Some(v)) == Some(TaxRateCode(v))
  {
  }

  lemma InvoiceTypeFound(v: InvoiceType)
    ensures Found(INVOICE_TYPES, Some(v)) == Some(InvoiceTypeCode(v))
  {
  }

  lemma BuyerRemarkFound(v: Option<BuyerRemark>)
    ensures Found(BUYER_REMARKS, v) == Coded(v, BuyerRemarkCode)
  {
  }

  lemma CustomsMarkFound(v: Option<CustomsMark>)
    ensures Found(CUSTOMS_MARKS, v) == Coded(v, CustomsMarkCode)
  {
  }

  lemma BondedAreaFound(v: Option<BondedArea>)
    ensures Found(BONDED_AREAS, v) == Coded(v, BondedAreaCode)
  {
  }

  lemma ReasonFound(v: Option<ZeroTaxRateReason>)
    ensures ReasonText(v) == Coded(v, ZeroTaxRateReasonCode)
  {
    if v.Some? {
      var d := Decimal.DigitChar(v.value % 10);
      assert v.value / 10 == 7 && v.value % 10 == v.value - 70 && d == ('0' as int + v.value - 70) as char;
      assert Decimal.DigitChar(7) == '7' && Decimal.Render(7) == ['7'];
      assert Decimal.Render(v.value) == Decimal.Render(7) + [d] == ['7', d];
    }
  }

  // ---------------------------------------------------------------- elements

  /** Elements with text, in order; an absent one leaves nothing, an empty one an empty element. */
  function Listed(table: seq<(string, Option<string>)>): seq<Node> {
    if table == [] then []
    else
      var (tag, value) := table[0];
      (match value
       case None => []
       case Some(text) => [Element(tag, [], if text == "" then [] else [Text(text)])]) + Listed(table[1..])
  }

  function PartyElement(tag: string, r: RoleDescription): Node {
    Element(tag, [], Listed([
      ("Identifier", Some(r.identifier)), ("Name", Some(r.name)), ("Address", r.address),
      ("PersonInCharge", r.personInCharge), ("TelephoneNumber", r.telephoneNumber),
      ("FacsimileNumber", r.facsimileNumber), ("EmailAddress", r.emailAddress),
      ("CustomerNumber", r.customerNumber), ("RoleRemark", r.roleRemark)]))
  }

  function MainElement(m: Main): Node {
    Element("Main", [],
      Listed([("InvoiceNumber", Some(m.invoiceNumber)), ("InvoiceDate", Some(m.invoiceDate)),
              ("InvoiceTime", Some(m.invoiceTime))])
      + [PartyElement("Seller", m.seller), PartyElement("Buyer", m.buyer)]
      + Listed([("BuyerRemark", Found(BUYER_REMARKS, m.buyerRemark)), ("MainRemark", m.mainRemark),
                ("CustomsClearanceMark", Found(CUSTOMS_MARKS, m.customsMark)),
                ("Category", m.category), ("RelateNumber", m.relateNumber),
                ("InvoiceType", Found(INVOICE_TYPES, Some(m.invoiceType))),
                ("GroupMark", m.groupMark), ("DonateMark", Some(if m.donateMark == Donated then "1" else "0")),
                ("CarrierType", m.carrierType), ("CarrierId1", m.carrierId1), ("CarrierId2", m.carrierId2),
                ("PrintMark", Some(if m.printMark == PrintPaper then "Y" else "N")),
                ("NPOBAN", m.npoBan), ("RandomNumber", m.randomNumber),
                ("BondedAreaConfirm", Found(BONDED_AREAS, m.bondedArea)),
                ("ZeroTaxRateReason", ReasonText(m.zeroTaxRateReason)),
                ("Reserved1", m.reserved1), ("Reserved2", m.reserved2)]))
  }

  function ItemElement(p: ProductItem): Node {
    Element("ProductItem", [], Listed([
      ("Description", Some(p.description)), ("Quantity", Some(p.quantity)), ("Unit", p.unit),
      ("UnitPrice", Some(p.unitPrice)), ("TaxType", Found(TAX_TYPES, Some(p.taxType))), ("Amount", Some(p.amount)),
      ("SequenceNumber", Some(p.sequenceNumber)), ("Remark", p.remark), ("RelateNumber", p.relateNumber)]))
  }

  function AmountElement(a: Amount): Node {
    Element("Amount", [], Listed([
      ("SalesAmount", Some(a.salesAmount)), ("FreeTaxSalesAmount", Some(a.freeTaxSalesAmount)),
      ("ZeroTaxSalesAmount", Some(a.zeroTaxSalesAmount)), ("TaxType", Found(TAX_TYPES, Some(a.taxType))),
      ("TaxRate", Found(TAX_RATES, Some(a.taxRate))), ("TaxAmount", Some(a.taxAmount)),
      ("TotalAmount", Some(a.totalAmount)), ("DiscountAmount", a.discountAmount),
      ("OriginalCurrencyAmount", a.originalCurrencyAmount), ("ExchangeRate", a.exchangeRate),
      ("Currency", a.currency)]))
  }

  function ItemElements(items: seq<ProductItem>): seq<Node> {
    seq(|items|, i requires 0 <= i < |items| => ItemElement(items[i]))
  }

  /** One `Invoice` element of the F0401 namespace. */
  function Document(v: Invoice): Node {
    Element("Invoice", [Attribute("xmlns", "urn:GEINV:eInvoiceMessage:F0401:4.1")],
            [MainElement(v.main), Element("Details", [], ItemElements(v.details)),
             AmountElement(v.amount)])
  }

  // ---------------------------------------------------------------- the tree is the document

  /** A table grows in front. */
  lemma Front(tag: string, value: Option<string>, rest: seq<(string, Option<string>)>)
    ensures Listed([(tag, value)] + rest) == Optional(tag, value) + Listed(rest)
  {
    assert ([(tag, value)] + rest)[1..] == rest;
  }

  lemma FrontPresent(tag: string, value: string, rest: seq<(string, Option<string>)>)
    ensures Listed([(tag, Some(value))] + rest) == [Leaf(tag, value)] + Listed(rest)
  {
    assert ([(tag, Some(value))] + rest)[1..] == rest;
  }

  lemma ContactListed(c: Contact, t: seq<(string, Option<string>)>)
    ensures Listed([("Address", c.address), ("PersonInCharge", c.personInCharge),
                    ("TelephoneNumber", c.telephoneNumber), ("FacsimileNumber", c.facsimileNumber)] + t) ==
            ContactFields(c, Listed(t))
  {
    hide Listed, Optional, Leaf;
    Front("FacsimileNumber", c.facsimileNumber, t);
    var t3 := [("FacsimileNumber", c.facsimileNumber)] + t;
    Front("TelephoneNumber", c.telephoneNumber, t3);
    var t2 := [("TelephoneNumber", c.telephoneNumber)] + t3;
    Front("PersonInCharge", c.personInCharge, t2);
    var t1 := [("PersonInCharge", c.personInCharge)] + t2;
    Front("Address", c.address, t1);
    assert [("Address", c.address), ("PersonInCharge", c.personInCharge), ("TelephoneNumber", c.telephoneNumber),
            ("FacsimileNumber", c.facsimileNumber)] + t
        == [("Address", c.address)] + t1;
  }

  lemma ReferenceListed(r: Reference)
    ensures Listed([("EmailAddress", r.emailAddress), ("CustomerNumber", r.customerNumber),
                    ("RoleRemark", r.roleRemark)]) == ReferenceFields(r, [])
  {
    assert Listed([]) == [];
    hide Listed, Optional, Leaf;
    var t3: seq<(string, Option<string>)> := [];
    Front("RoleRemark", r.roleRemark, t3);
    var t2 := [("RoleRemark", r.roleRemark)] + t3;
    Front("CustomerNumber", r.customerNumber, t2);
    var t1 := [("CustomerNumber", r.customerNumber)] + t2;
    Front("EmailAddress", r.emailAddress, t1);
    assert [("EmailAddress", r.emailAddress), ("CustomerNumber", r.customerNumber), ("RoleRemark", r.roleRemark)]
        == [("EmailAddress", r.emailAddress)] + t1;
  }

  lemma PartyIs(tag: string, r: RoleDescription)
    ensures RoleNode(tag, r) == PartyElement(tag, r)
  {
    hide Listed, Leaf, ContactFields, ReferenceFields;
    var references := [("EmailAddress", r.emailAddress), ("CustomerNumber", r.customerNumber),
                       ("RoleRemark", r.roleRemark)];
    var contacts := [("Address", r.address), ("PersonInCharge", r.personInCharge),
                     ("TelephoneNumber", r.telephoneNumber), ("FacsimileNumber", r.facsimileNumber)] + references;
    ReferenceListed(Reference(r.emailAddress, r.customerNumber, r.roleRemark));
    ContactListed(Contact(r.address, r.personInCharge, r.telephoneNumber, r.facsimileNumber), references);
    FrontPresent("Name", r.name, contacts);
    FrontPresent("Identifier", r.identifier, [("Name", Some(r.name))] + contacts);
    assert [("Identifier", Some(r.identifier)), ("Name", Some(r.name)), ("Address", r.address),
            ("PersonInCharge", r.personInCharge), ("TelephoneNumber", r.telephoneNumber),
            ("FacsimileNumber", r.facsimileNumber), ("EmailAddress", r.emailAddress),
            ("CustomerNumber", r.customerNumber), ("RoleRemark", r.roleRemark)]
        == [("Identifier", Some(r.identifier))] + ([("Name", Some(r.name))] + contacts);
  }

  lemma RemarksListed(r: Remarks, t: seq<(string, Option<string>)>)
    ensures Listed([("BuyerRemark", r.buyerRemark), ("MainRemark", r.mainRemark),
                    ("CustomsClearanceMark", r.customsMark)] + t) == RemarksFields(r, Listed(t))
  {
    hide Listed, Optional, Leaf;
    Front("CustomsClearanceMark", r.customsMark, t);
    var t2 := [("CustomsClearanceMark", r.customsMark)] + t;
    Front("MainRemark", r.mainRemark, t2);
    var t1 := [("MainRemark", r.mainRemark)] + t2;
    Front("BuyerRemark", r.buyerRemark, t1);
    assert [("BuyerRemark", r.buyerRemark), ("MainRemark", r.mainRemark), ("CustomsClearanceMark", r.customsMark)] + t
        == [("BuyerRemark", r.buyerRemark)] + t1;
  }

  lemma RelationListed(r: Relation, t: seq<(string, Option<string>)>)
    ensures Listed([("Category", r.category), ("RelateNumber", r.relateNumber),
                    ("InvoiceType", Some(r.invoiceType))] + t) == RelationFields(r, Listed(t))
  {
    hide Listed, Optional, Leaf;
    FrontPresent("InvoiceType", r.invoiceType, t);
    var t2 := [("InvoiceType", Some(r.invoiceType))] + t;
    Front("RelateNumber", r.relateNumber, t2);
    var t1 := [("RelateNumber", r.relateNumber)] + t2;
    Front("Category", r.category, t1);
    assert [("Category", r.category), ("RelateNumber", r.relateNumber), ("InvoiceType", Some(r.invoiceType))] + t
        == [("Category", r.category)] + t1;
  }

  lemma CarrierListed(c: Carrier, t: seq<(string, Option<string>)>)
    ensures Listed([("GroupMark", c.groupMark), ("DonateMark", Some(c.donateMark)), ("CarrierType", c.carrierType),
                    ("CarrierId1", c.carrierId1), ("CarrierId2", c.carrierId2),
                    ("PrintMark", Some(c.printMark))] + t) == CarrierFields(c, Listed(t))
  {
    hide Listed, Optional, Leaf;
    FrontPresent("PrintMark", c.printMark, t);
    var t5 := [("PrintMark", Some(c.printMark))] + t;
    Front("CarrierId2", c.carrierId2, t5);
    var t4 := [("CarrierId2", c.carrierId2)] + t5;
    Front("CarrierId1", c.carrierId1, t4);
    var t3 := [("CarrierId1", c.carrierId1)] + t4;
    Front("CarrierType", c.carrierType, t3);
    var t2 := [("CarrierType", c.carrierType)] + t3;
    FrontPresent("DonateMark", c.donateMark, t2);
    var t1 := [("DonateMark", Some(c.donateMark))] + t2;
    Front("GroupMark", c.groupMark, t1);
    assert [("GroupMark", c.groupMark), ("DonateMark", Some(c.donateMark)), ("CarrierType", c.carrierType),
            ("CarrierId1", c.carrierId1), ("CarrierId2", c.carrierId2), ("PrintMark", Some(c.printMark))] + t
        == [("GroupMark", c.groupMark)] + t1;
  }

  lemma ReceiverListed(r: Receiver, t: seq<(string, Option<string>)>)
    ensures Listed([("NPOBAN", r.npoBan), ("RandomNumber", r.randomNumber),
                    ("BondedAreaConfirm", r.bondedArea)] + t) == ReceiverFields(r, Listed(t))
  {
    hide Listed, Optional, Leaf;
    Front("BondedAreaConfirm", r.bondedArea, t);
    var t2 := [("BondedAreaConfirm", r.bondedArea)] + t;
    Front("RandomNumber", r.randomNumber, t2);
    var t1 := [("RandomNumber", r.randomNumber)] + t2;
    Front("NPOBAN", r.npoBan, t1);
    assert [("NPOBAN", r.npoBan), ("RandomNumber", r.randomNumber), ("BondedAreaConfirm", r.bondedArea)] + t
        == [("NPOBAN", r.npoBan)] + t1;
  }

  lemma ReserveListed(r: Reserve)
    ensures Listed([("ZeroTaxRateReason", r.zeroTaxRateReason), ("Reserved1", r.reserved1),
                    ("Reserved2", r.reserved2)]) == ReserveFields(r, [])
  {
    assert Listed([]) == [];
    hide Listed, Optional, Leaf;
    var t3: seq<(string, Option<string>)> := [];
    Front("Reserved2", r.reserved2, t3);
    var t2 := [("Reserved2", r.reserved2)] + t3;
    Front("Reserved1", r.reserved1, t2);
    var t1 := [("Reserved1", r.reserved1)] + t2;
    Front("ZeroTaxRateReason", r.zeroTaxRateReason, t1);
    assert [("ZeroTaxRateReason", r.zeroTaxRateReason), ("Reserved1", r.reserved1), ("Reserved2", r.reserved2)]
        == [("ZeroTaxRateReason", r.zeroTaxRateReason)] + t1;
  }

  /** What follows the parties. */
  lemma MainRestIs(p: Parts)
    ensures Listed(MainTable(p)) ==
            RemarksFields(p.remarks, RelationFields(p.relation, CarrierFields(p.carrier,
              ReceiverFields(p.receiver, ReserveFields(p.reserve, [])))))
  {
    hide Listed, RemarksFields, RelationFields, CarrierFields, ReceiverFields, ReserveFields;
    var (remarks, relation, carrier, receiver, reserve) := (p.remarks, p.relation, p.carrier, p.receiver, p.reserve);
    var t5 := [("ZeroTaxRateReason", reserve.zeroTaxRateReason), ("Reserved1", reserve.reserved1),
               ("Reserved2", reserve.reserved2)];
    ReserveListed(reserve);
    var t4 := [("NPOBAN", receiver.npoBan), ("RandomNumber", receiver.randomNumber),
               ("BondedAreaConfirm", receiver.bondedArea)] + t5;
    ReceiverListed(receiver, t5);
    var t3 := [("GroupMark", carrier.groupMark), ("DonateMark", Some(carrier.donateMark)),
               ("CarrierType", carrier.carrierType), ("CarrierId1", carrier.carrierId1),
               ("CarrierId2", carrier.carrierId2), ("PrintMark", Some(carrier.printMark))] + t4;
    CarrierListed(carrier, t4);
    var t2 := [("Category", relation.category), ("RelateNumber", relation.relateNumber),
               ("InvoiceType", Some(relation.invoiceType))] + t3;
    RelationListed(relation, t3);
    RemarksListed(remarks, t2);
    assert MainTable(p) == [("BuyerRemark", remarks.buyerRemark), ("MainRemark", remarks.mainRemark),
                            ("CustomsClearanceMark", remarks.customsMark)] + t2;
  }

  /** The fields of `Main` after the parties, already as text. */
  function MainTable(p: Parts): seq<(string, Option<string>)> {
    [("BuyerRemark", p.remarks.buyerRemark), ("MainRemark", p.remarks.mainRemark),
     ("CustomsClearanceMark", p.remarks.customsMark),
     ("Category", p.relation.category), ("RelateNumber", p.relation.relateNumber),
     ("InvoiceType", Some(p.relation.invoiceType)),
     ("GroupMark", p.carrier.groupMark), ("DonateMark", Some(p.carrier.donateMark)),
     ("CarrierType", p.carrier.carrierType), ("CarrierId1", p.carrier.carrierId1),
     ("CarrierId2", p.carrier.carrierId2), ("PrintMark", Some(p.carrier.printMark)),
     ("NPOBAN", p.receiver.npoBan), ("RandomNumber", p.receiver.randomNumber),
     ("BondedAreaConfirm", p.receiver.bondedArea),
     ("ZeroTaxRateReason", p.reserve.zeroTaxRateReason), ("Reserved1", p.reserve.reserved1),
     ("Reserved2", p.reserve.reserved2)]
  }

  lemma ItemListed(p: ItemTexts)
    ensures Listed([("Description", Some(p.description)), ("Quantity", Some(p.quantity)), ("Unit", p.unit),
                    ("UnitPrice", Some(p.unitPrice)), ("TaxType", Some(p.taxType)), ("Amount", Some(p.amount)),
                    ("SequenceNumber", Some(p.sequenceNumber)), ("Remark", p.remark),
                    ("RelateNumber", p.relateNumber)]) == ItemFields(p)
  {
    hide Listed, Optional, Leaf;
    var t4 := [("TaxType", Some(p.taxType)), ("Amount", Some(p.amount)), ("SequenceNumber", Some(p.sequenceNumber)),
               ("Remark", p.remark), ("RelateNumber", p.relateNumber)];
    ItemEndListed(p);
    FrontPresent("UnitPrice", p.unitPrice, t4);
    var t3 := [("UnitPrice", Some(p.unitPrice))] + t4;
    Front("Unit", p.unit, t3);
    var t2 := [("Unit", p.unit)] + t3;
    FrontPresent("Quantity", p.quantity, t2);
    var t1 := [("Quantity", Some(p.quantity))] + t2;
    FrontPresent("Description", p.description, t1);
    assert [("Description", Some(p.description)), ("Quantity", Some(p.quantity)), ("Unit", p.unit),
            ("UnitPrice", Some(p.unitPrice)), ("TaxType", Some(p.taxType)), ("Amount", Some(p.amount)),
            ("SequenceNumber", Some(p.sequenceNumber)), ("Remark", p.remark), ("RelateNumber", p.relateNumber)]
        == [("Description", Some(p.description))] + t1;
  }

  lemma ItemEndListed(p: ItemTexts)
    ensures Listed([("TaxType", Some(p.taxType)), ("Amount", Some(p.amount)),
                    ("SequenceNumber", Some(p.sequenceNumber)), ("Remark", p.remark),
                    ("RelateNumber", p.relateNumber)]) ==
            [Leaf("TaxType", p.taxType)] + ([Leaf("Amount", p.amount)] + ([Leaf("SequenceNumber", p.sequenceNumber)] +
            (Optional("Remark", p.remark) + (Optional("RelateNumber", p.relateNumber) + []))))
  {
    assert Listed([]) == [];
    hide Listed, Optional, Leaf;
    var t5: seq<(string, Option<string>)> := [];
    Front("RelateNumber", p.relateNumber, t5);
    var t4 := [("RelateNumber", p.relateNumber)] + t5;
    Front("Remark", p.remark, t4);
    var t3 := [("Remark", p.remark)] + t4;
    FrontPresent("SequenceNumber", p.sequenceNumber, t3);
    var t2 := [("SequenceNumber", Some(p.sequenceNumber))] + t3;
    FrontPresent("Amount", p.amount, t2);
    var t1 := [("Amount", Some(p.amount))] + t2;
    FrontPresent("TaxType", p.taxType, t1);
    assert [("TaxType", Some(p.taxType)), ("Amount", Some(p.amount)), ("SequenceNumber", Some(p.sequenceNumber)),
            ("Remark", p.remark), ("RelateNumber", p.relateNumber)]
        == [("TaxType", Some(p.taxType))] + t1;
  }

  lemma ExtrasListed(e: Extras)
    ensures Listed([("DiscountAmount", e.discountAmount), ("OriginalCurrencyAmount", e.originalCurrencyAmount),
                    ("ExchangeRate", e.exchangeRate), ("Currency", e.currency)]) == ExtrasFields(e)
  {
    assert Listed([]) == [];
    hide Listed, Optional, Leaf;
    var t4: seq<(string, Option<string>)> := [];
    Front("Currency", e.currency, t4);
    var t3 := [("Currency", e.currency)] + t4;
    Front("ExchangeRate", e.exchangeRate, t3);
    var t2 := [("ExchangeRate", e.exchangeRate)] + t3;
    Front("OriginalCurrencyAmount", e.originalCurrencyAmount, t2);
    var t1 := [("OriginalCurrencyAmount", e.originalCurrencyAmount)] + t2;
    Front("DiscountAmount", e.discountAmount, t1);
    assert [("DiscountAmount", e.discountAmount), ("OriginalCurrencyAmount", e.originalCurrencyAmount),
            ("ExchangeRate", e.exchangeRate), ("Currency", e.currency)]
        == [("DiscountAmount", e.discountAmount)] + t1;
  }

  lemma SumsListed(s: Sums, t: seq<(string, Option<string>)>)
    ensures Listed([("SalesAmount", Some(s.salesAmount)), ("FreeTaxSalesAmount", Some(s.freeTaxSalesAmount)),
                    ("ZeroTaxSalesAmount", Some(s.zeroTaxSalesAmount)), ("TaxType", Some(s.taxType)),
                    ("TaxRate", Some(s.taxRate)), ("TaxAmount", Some(s.taxAmount)),
                    ("TotalAmount", Some(s.totalAmount))] + t) == SumsFields(s, Listed(t))
  {
    hide Listed, Optional, Leaf;
    FrontPresent("TotalAmount", s.totalAmount, t);
    var t6 := [("TotalAmount", Some(s.totalAmount))] + t;
    FrontPresent("TaxAmount", s.taxAmount, t6);
    var t5 := [("TaxAmount", Some(s.taxAmount))] + t6;
    FrontPresent("TaxRate", s.taxRate, t5);
    var t4 := [("TaxRate", Some(s.taxRate))] + t5;
    FrontPresent("TaxType", s.taxType, t4);
    var t3 := [("TaxType", Some(s.taxType))] + t4;
    FrontPresent("ZeroTaxSalesAmount", s.zeroTaxSalesAmount, t3);
    var t2 := [("ZeroTaxSalesAmount", Some(s.zeroTaxSalesAmount))] + t3;
    FrontPresent("FreeTaxSalesAmount", s.freeTaxSalesAmount, t2);
    var t1 := [("FreeTaxSalesAmount", Some(s.freeTaxSalesAmount))] + t2;
    FrontPresent("SalesAmount", s.salesAmount, t1);
    assert [("SalesAmount", Some(s.salesAmount)), ("FreeTaxSalesAmount", Some(s.freeTaxSalesAmount)),
            ("ZeroTaxSalesAmount", Some(s.zeroTaxSalesAmount)), ("TaxType", Some(s.taxType)),
            ("TaxRate", Some(s.taxRate)), ("TaxAmount", Some(s.taxAmount)), ("TotalAmount", Some(s.totalAmount))] + t
        == [("SalesAmount", Some(s.salesAmount))] + t1;
  }

  lemma ItemIs(p: ProductItem)
    ensures ItemNode(p) == ItemElement(p)
  {
    hide Listed, ItemFields, TaxTypeCode;
    TaxTypeFound(p.taxType);
    ItemListed(ItemTextsOf(p));
  }

  lemma AmountIs(a: Amount)
    ensures AmountNode(a) == AmountElement(a)
  {
    hide Listed, SumsFields, ExtrasFields, TaxTypeCode, TaxRateCode;
    TaxTypeFound(a.taxType);
    TaxRateFound(a.taxRate);
    var s, e := SumsOf(a), ExtrasOf(a);
    var extras: seq<(string, Option<string>)> :=
      [("DiscountAmount", e.discountAmount), ("OriginalCurrencyAmount", e.originalCurrencyAmount),
       ("ExchangeRate", e.exchangeRate), ("Currency", e.currency)];
    ExtrasListed(e);
    SumsListed(s, extras);
    assert [("SalesAmount", Some(s.salesAmount)), ("FreeTaxSalesAmount", Some(s.freeTaxSalesAmount)),
            ("ZeroTaxSalesAmount", Some(s.zeroTaxSalesAmount)), ("TaxType", Some(s.taxType)),
            ("TaxRate", Some(s.taxRate)), ("TaxAmount", Some(s.taxAmount)), ("TotalAmount", Some(s.totalAmount)),
            ("DiscountAmount", e.discountAmount), ("OriginalCurrencyAmount", e.originalCurrencyAmount),
            ("ExchangeRate", e.exchangeRate), ("Currency", e.currency)]
        == [("SalesAmount", Some(s.salesAmount)), ("FreeTaxSalesAmount", Some(s.freeTaxSalesAmount)),
            ("ZeroTaxSalesAmount", Some(s.zeroTaxSalesAmount)), ("TaxType", Some(s.taxType)),
            ("TaxRate", Some(s.taxRate)), ("TaxAmount", Some(s.taxAmount)), ("TotalAmount", Some(s.totalAmount))]
           + extras;
  }

  lemma MainIs(m: Main)
    ensures MainNode(m) == MainElement(m)
  {
    hide Leaf, RoleNode, PartyElement, RemarksFields, Coded, Found;
    hide InvoiceTypeCode, DonateMarkCode, PrintMarkCode;
    MainCodes(m);
    MainRestIs(PartsOf(m));
    PartyIs("Seller", m.seller);
    PartyIs("Buyer", m.buyer);
    IssueIs(IssueOf(m), Listed(MainTable(PartsOf(m))));
    hide Listed, IssueFields;
  }

  lemma MainCodes(m: Main)
    ensures var t := MainTable(PartsOf(m));
            && t[0].1 == Found(BUYER_REMARKS, m.buyerRemark) && t[2].1 == Found(CUSTOMS_MARKS, m.customsMark)
            && t[5].1 == Found(INVOICE_TYPES, Some(m.invoiceType))
            && t[7].1 == Some(if m.donateMark == Donated then "1" else "0")
            && t[11].1 == Some(if m.printMark == PrintPaper then "Y" else "N")
            && t[14].1 == Found(BONDED_AREAS, m.bondedArea) && t[15].1 == ReasonText(m.zeroTaxRateReason)
  {
    BuyerRemarkFound(m.buyerRemark);
    CustomsMarkFound(m.customsMark);
    InvoiceTypeFound(m.invoiceType);
    BondedAreaFound(m.bondedArea);
    ReasonFound(m.zeroTaxRateReason);
    hide Found, Coded, InvoiceTypeCode, ReasonText;
  }

  lemma IssueIs(i: Issue, rest: seq<Node>)
    ensures IssueFields(i, rest) ==
            Listed([("InvoiceNumber", Some(i.number)), ("InvoiceDate", Some(i.date)), ("InvoiceTime", Some(i.time))])
            + [RoleNode("Seller", i.seller), RoleNode("Buyer", i.buyer)] + rest
  {
    hide RoleNode, Leaf;
    FrontPresent("InvoiceTime", i.time, []);
    FrontPresent("InvoiceDate", i.date, [("InvoiceTime", Some(i.time))]);
    FrontPresent("InvoiceNumber", i.number, [("InvoiceDate", Some(i.date)), ("InvoiceTime", Some(i.time))]);
    assert Listed([]) == [];
    hide Listed;
    assert [("InvoiceTime", Some(i.time))] + [] == [("InvoiceTime", Some(i.time))];
    assert [("InvoiceDate", Some(i.date))] + [("InvoiceTime", Some(i.time))]
        == [("InvoiceDate", Some(i.date)), ("InvoiceTime", Some(i.time))];
    assert [("InvoiceNumber", Some(i.number))] + [("InvoiceDate", Some(i.date)), ("InvoiceTime", Some(i.time))]
        == [("InvoiceNumber", Some(i.number)), ("InvoiceDate", Some(i.date)), ("InvoiceTime", Some(i.time))];
  }

  lemma {:induction false} ItemsAre(items: seq<ProductItem>)
    ensures ItemNodes(items) == ItemElements(items)
  {
    hide ItemElement, ItemNode;
    if items != [] {
      ItemIs(items[0]);
      ItemsAre(items[1..]);
    }
  }

  // ---------------------------------------------------------------- main result

  /**
    The text of an invoice reads, by the element parser of XML 1.0, as exactly these elements
    in this order, whatever follows it.
   */
  lemma DocumentReads(v: Invoice, rest: string)
    ensures ParseElement(XmlText(v) + rest) == Some((Document(v), rest))
  {
    hide WellFormed, Print, ParseElement, MainNode, MainElement, ItemNodes, ItemElements, AmountNode, AmountElement;
    InvoiceWellFormed(v);
    ParseElementInverts(InvoiceNode(v), rest);
    MainIs(v.main);
    ItemsAre(v.details);
    AmountIs(v.amount);
  }
}
