/** The whole F0401 document as an element tree, its reader, and its XML text. */
module F0401InvoiceTree {
  import opened Wrappers
  import opened Primitives
  import opened Xml
  import opened F0401Document
  import opened F0401Tree
  import opened F0401MainTree

  // ---------------------------------------------------------------- product items

  datatype ItemTexts = ItemTexts(description: string, quantity: string, unit: Option<string>, unitPrice: string,
                                 taxType: string, amount: string, sequenceNumber: string,
                                 remark: Option<string>, relateNumber: Option<string>)

  function ItemTextsOf(p: ProductItem): ItemTexts {
    ItemTexts(p.description, p.quantity, p.unit, p.unitPrice, TaxTypeCode(p.taxType), p.amount, p.sequenceNumber,
              p.remark, p.relateNumber)
  }

  function ItemFields(p: ItemTexts): seq<Node> {
    [Leaf("Description", p.description)] + ([Leaf("Quantity", p.quantity)] + (Optional("Unit", p.unit) +
    ([Leaf("UnitPrice", p.unitPrice)] + ([Leaf("TaxType", p.taxType)] + ([Leaf("Amount", p.amount)] +
    ([Leaf("SequenceNumber", p.sequenceNumber)] + (Optional("Remark", p.remark) +
    (Optional("RelateNumber", p.relateNumber) + []))))))))
  }

  function ItemNode(p: ProductItem): Node { Element("ProductItem", [], ItemFields(ItemTextsOf(p))) }

  function ReadItemTexts(nodes: seq<Node>): (r: Option<ItemTexts>)
    ensures r.Some? ==> nodes == ItemFields(r.value)
  {
    var (description, n1) :- Take(nodes, "Description");
    var (quantity, n2) :- Take(n1, "Quantity");
    var (unit, n3) := TakeOptional(n2, "Unit");
    var (unitPrice, n4) :- Take(n3, "UnitPrice");
    var (taxType, n5) :- Take(n4, "TaxType");
    var (amount, n6) :- Take(n5, "Amount");
    var (sequenceNumber, n7) :- Take(n6, "SequenceNumber");
    var (remark, n8) := TakeOptional(n7, "Remark");
    var (relateNumber, n9) := TakeOptional(n8, "RelateNumber");
    if n9 != [] then None
    else Some(ItemTexts(description, quantity, unit, unitPrice, taxType, amount, sequenceNumber, remark, relateNumber))
  }

  lemma ReadItemTextsInverts(p: ItemTexts)
    ensures ReadItemTexts(ItemFields(p)) == Some(p)
  {
    var n8 := Optional("RelateNumber", p.relateNumber) + [];
    var n7 := Optional("Remark", p.remark) + n8;
    var n6 := [Leaf("SequenceNumber", p.sequenceNumber)] + n7;
    var n5 := [Leaf("Amount", p.amount)] + n6;
    var n4 := [Leaf("TaxType", p.taxType)] + n5;
    var n3 := [Leaf("UnitPrice", p.unitPrice)] + n4;
    var n2 := Optional("Unit", p.unit) + n3;
    TakeOptionalInverts("RelateNumber", p.relateNumber, []);
    TakeOptionalInverts("Remark", p.remark, n8);
    TakeInverts("SequenceNumber", p.sequenceNumber, n7);
    TakeInverts("Amount", p.amount, n6);
    TakeInverts("TaxType", p.taxType, n5);
    TakeInverts("UnitPrice", p.unitPrice, n4);
    TakeOptionalInverts("Unit", p.unit, n3);
    TakeInverts("Quantity", p.quantity, n2);
    TakeInverts("Description", p.description, [Leaf("Quantity", p.quantity)] + n2);
    hide Take, TakeOptional, Optional, Leaf, Lead;
  }

  function ReadItem(node: Node): Option<ProductItem> {
    if !node.Element? || node.name != "ProductItem" || node.attributes != [] then None
    else
      var t :- ReadItemTexts(node.children);
      var taxType :- ReadTaxType(t.taxType);
      if !IsDecimal(t.quantity) || !IsDecimal(t.unitPrice) || !IsDecimal(t.amount) then None
      else Some(ProductItem(t.description, t.quantity, t.unit, t.unitPrice, taxType, t.amount, t.sequenceNumber,
                            t.remark, t.relateNumber))
  }

  lemma ReadItemExact(node: Node, p: ProductItem)
    ensures ReadItem(node) == Some(p) <==> node == ItemNode(p)
  {
    ReadItemTextsInverts(ItemTextsOf(p));
    hide ReadItemTexts, ItemFields, IsDecimal;
  }

  function ItemNodes(items: seq<ProductItem>): (r: seq<Node>)
    ensures |r| == |items|
  {
    if items == [] then [] else [ItemNode(items[0])] + ItemNodes(items[1..])
  }

  function ReadItems(nodes: seq<Node>): Option<seq<ProductItem>> {
    if nodes == [] then Some([])
    else
      var first :- ReadItem(nodes[0]);
      var rest :- ReadItems(nodes[1..]);
      Some([first] + rest)
  }

  lemma {:induction false} ReadItemsInverts(items: seq<ProductItem>)
    ensures ReadItems(ItemNodes(items)) == Some(items)
  {
    hide ReadItem, ItemNode;
    if items != [] {
      var nodes := ItemNodes(items);
      ReadItemExact(nodes[0], items[0]);
      ReadItemsInverts(items[1..]);
      assert nodes[1..] == ItemNodes(items[1..]);
      assert items == [items[0]] + items[1..];
    }
  }

  lemma {:induction false} ReadItemsSound(nodes: seq<Node>)
    requires ReadItems(nodes).Some?
    ensures nodes == ItemNodes(ReadItems(nodes).value)
  {
    hide ReadItem, ItemNode;
    if nodes != [] {
      var items := ReadItems(nodes).value;
      ReadItemExact(nodes[0], items[0]);
      ReadItemsSound(nodes[1..]);
      assert items[1..] == ReadItems(nodes[1..]).value;
    }
  }

  function DetailsNode(items: seq<ProductItem>): Node { Element("Details", [], ItemNodes(items)) }

  // ---------------------------------------------------------------- amounts

  datatype Sums = Sums(salesAmount: string, freeTaxSalesAmount: string, zeroTaxSalesAmount: string, taxType: string,
                       taxRate: string, taxAmount: string, totalAmount: string)
  datatype Extras = Extras(discountAmount: Option<string>, originalCurrencyAmount: Option<string>,
                           exchangeRate: Option<string>, currency: Option<string>)

  function SumsOf(a: Amount): Sums {
    Sums(a.salesAmount, a.freeTaxSalesAmount, a.zeroTaxSalesAmount, TaxTypeCode(a.taxType), TaxRateCode(a.taxRate),
         a.taxAmount, a.totalAmount)
  }
  function ExtrasOf(a: Amount): Extras {
    Extras(a.discountAmount, a.originalCurrencyAmount, a.exchangeRate, a.currency)
  }

  function SumsFields(s: Sums, rest: seq<Node>): seq<Node> {
    [Leaf("SalesAmount", s.salesAmount)] + ([Leaf("FreeTaxSalesAmount", s.freeTaxSalesAmount)] +
    ([Leaf("ZeroTaxSalesAmount", s.zeroTaxSalesAmount)] + ([Leaf("TaxType", s.taxType)] +
    ([Leaf("TaxRate", s.taxRate)] + ([Leaf("TaxAmount", s.taxAmount)] +
    ([Leaf("TotalAmount", s.totalAmount)] + rest))))))
  }

  function ExtrasFields(e: Extras): seq<Node> {
    Optional("DiscountAmount", e.discountAmount) + (Optional("OriginalCurrencyAmount", e.originalCurrencyAmount) +
    (Optional("ExchangeRate", e.exchangeRate) + (Optional("Currency", e.currency) + [])))
  }

  function AmountNode(a: Amount): Node { Element("Amount", [], SumsFields(SumsOf(a), ExtrasFields(ExtrasOf(a)))) }

  function ReadSums(nodes: seq<Node>): (r: Option<(Sums, seq<Node>)>)
    ensures r.Some? ==> nodes == SumsFields(r.value.0, r.value.1)
  {
    var (salesAmount, n1) :- Take(nodes, "SalesAmount");
    var (freeTaxSalesAmount, n2) :- Take(n1, "FreeTaxSalesAmount");
    var (zeroTaxSalesAmount, n3) :- Take(n2, "ZeroTaxSalesAmount");
    var (taxType, n4) :- Take(n3, "TaxType");
    var (taxRate, n5) :- Take(n4, "TaxRate");
    var (taxAmount, n6) :- Take(n5, "TaxAmount");
    var (totalAmount, n7) :- Take(n6, "TotalAmount");
    Some((Sums(salesAmount, freeTaxSalesAmount, zeroTaxSalesAmount, taxType, taxRate, taxAmount, totalAmount), n7))
  }

  function ReadExtras(nodes: seq<Node>): (r: Option<Extras>)
    ensures r.Some? ==> nodes == ExtrasFields(r.value)
  {
    var (discountAmount, n1) := TakeOptional(nodes, "DiscountAmount");
    var (originalCurrencyAmount, n2) := TakeOptional(n1, "OriginalCurrencyAmount");
    var (exchangeRate, n3) := TakeOptional(n2, "ExchangeRate");
    var (currency, n4) := TakeOptional(n3, "Currency");
    if n4 != [] then None else Some(Extras(discountAmount, originalCurrencyAmount, exchangeRate, currency))
  }

  lemma ReadSumsInverts(s: Sums, rest: seq<Node>)
    ensures ReadSums(SumsFields(s, rest)) == Some((s, rest))
  {
    var n6 := [Leaf("TotalAmount", s.totalAmount)] + rest;
    var n5 := [Leaf("TaxAmount", s.taxAmount)] + n6;
    var n4 := [Leaf("TaxRate", s.taxRate)] + n5;
    var n3 := [Leaf("TaxType", s.taxType)] + n4;
    var n2 := [Leaf("ZeroTaxSalesAmount", s.zeroTaxSalesAmount)] + n3;
    var n1 := [Leaf("FreeTaxSalesAmount", s.freeTaxSalesAmount)] + n2;
    TakeInverts("SalesAmount", s.salesAmount, n1);
    TakeInverts("FreeTaxSalesAmount", s.freeTaxSalesAmount, n2);
    TakeInverts("ZeroTaxSalesAmount", s.zeroTaxSalesAmount, n3);
    TakeInverts("TaxType", s.taxType, n4);
    TakeInverts("TaxRate", s.taxRate, n5);
    TakeInverts("TaxAmount", s.taxAmount, n6);
    TakeInverts("TotalAmount", s.totalAmount, rest);
    hide Take, Leaf, Lead;
  }

  lemma ReadExtrasInverts(e: Extras)
    ensures ReadExtras(ExtrasFields(e)) == Some(e)
  {
    var n3 := Optional("Currency", e.currency) + [];
    var n2 := Optional("ExchangeRate", e.exchangeRate) + n3;
    var n1 := Optional("OriginalCurrencyAmount", e.originalCurrencyAmount) + n2;
    TakeOptionalInverts("Currency", e.currency, []);
    TakeOptionalInverts("ExchangeRate", e.exchangeRate, n3);
    TakeOptionalInverts("OriginalCurrencyAmount", e.originalCurrencyAmount, n2);
    TakeOptionalInverts("DiscountAmount", e.discountAmount, n1);
    hide TakeOptional, Optional, Leaf, Lead;
  }

  function TypedAmount(s: Sums, e: Extras): Option<Amount> {
    var taxType :- ReadTaxType(s.taxType);
    var taxRate :- ReadTaxRate(s.taxRate);
    var discountAmount :- ReadOptional(e.discountAmount, ReadDecimal);
    var originalCurrencyAmount :- ReadOptional(e.originalCurrencyAmount, ReadDecimal);
    var exchangeRate :- ReadOptional(e.exchangeRate, ReadDecimal);
    var currency :- ReadOptional(e.currency, ReadCurrency);
    if IsDecimal(s.salesAmount) && IsDecimal(s.freeTaxSalesAmount) && IsDecimal(s.zeroTaxSalesAmount)
       && IsDecimal(s.taxAmount) && IsDecimal(s.totalAmount)
    then Some(Amount(s.salesAmount, s.freeTaxSalesAmount, s.zeroTaxSalesAmount, taxType, taxRate, s.taxAmount,
                     s.totalAmount, discountAmount, originalCurrencyAmount, exchangeRate, currency))
    else None
  }

  lemma TypedAmountExact(s: Sums, e: Extras, a: Amount)
    ensures TypedAmount(s, e) == Some(a) <==> s == SumsOf(a) && e == ExtrasOf(a)
  {
    hide IsDecimal, IsCurrency;
  }

  function ReadAmount(node: Node): Option<Amount> {
    if !node.Element? || node.name != "Amount" || node.attributes != [] then None
    else
      var (sums, rest) :- ReadSums(node.children);
      var extras :- ReadExtras(rest);
      TypedAmount(sums, extras)
  }

  lemma ReadAmountExact(node: Node, a: Amount)
    ensures ReadAmount(node) == Some(a) <==> node == AmountNode(a)
  {
    ReadExtrasInverts(ExtrasOf(a));
    ReadSumsInverts(SumsOf(a), ExtrasFields(ExtrasOf(a)));
    TypedAmountExact(SumsOf(a), ExtrasOf(a), a);
    if ReadAmount(node) == Some(a) {
      var (sums, rest) := ReadSums(node.children).value;
      TypedAmountExact(sums, ReadExtras(rest).value, a);
    }
    hide ReadSums, ReadExtras, TypedAmount, SumsFields, ExtrasFields, SumsOf, ExtrasOf;
  }

  // ---------------------------------------------------------------- the document

  const ROOT_ATTRIBUTES := [Attribute("xmlns", NAMESPACE)]

  function InvoiceNode(v: Invoice): Node {
    Element("Invoice", ROOT_ATTRIBUTES, [MainNode(v.main), DetailsNode(v.details), AmountNode(v.amount)])
  }

  function ReadInvoice(node: Node): Option<Invoice> {
    if !node.Element? || node.name != "Invoice" || node.attributes != ROOT_ATTRIBUTES || |node.children| != 3 then None
    else
      var main :- ReadMain(node.children[0]);
      var details := node.children[1];
      if !details.Element? || details.name != "Details" || details.attributes != [] then None
      else
        var items :- ReadItems(details.children);
        var amount :- ReadAmount(node.children[2]);
        Some(Invoice(main, items, amount))
  }

  /** An element tree reads as `v` exactly when it is the tree of `v`. */
  lemma ReadInvoiceExact(node: Node, v: Invoice)
    ensures ReadInvoice(node) == Some(v) <==> node == InvoiceNode(v)
  {
    hide ReadMain, ReadItems, ReadAmount, MainNode, ItemNodes, AmountNode;
    if node.Element? && |node.children| == 3 {
      ReadMainExact(node.children[0], v.main);
      ReadAmountExact(node.children[2], v.amount);
      assert node.children == [node.children[0], node.children[1], node.children[2]];
      ReadItemsInverts(v.details);
      if node.children[1].Element? && ReadItems(node.children[1].children) == Some(v.details) {
        ReadItemsSound(node.children[1].children);
      }
    }
  }
}
