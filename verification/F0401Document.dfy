/** The F0401 invoice, its wire codes and the element tree it denotes. */
module F0401Document {
  import opened Wrappers
  import opened Primitives
  import opened Xml
  import Decimal

  const NAMESPACE := "urn:GEINV:eInvoiceMessage:F0401:4.1"
  const MAX_PRODUCT_ITEMS := 9_999

  // ---------------------------------------------------------------- wire codes

  datatype InvoiceType = GeneralTax | SpecialTaxInvoice
  datatype DonateMark = NotDonated | Donated
  datatype PrintMark = PrintPaper | DoNotPrint
  datatype TaxType = Taxable | ZeroRated | TaxFree | SpecialTax | Mixed
  datatype TaxRate = Zero | OnePercent | TwoPercent | FivePercent | FifteenPercent | TwentyFivePercent
  datatype BuyerRemark = DeductibleExpense | DeductibleFixedAsset | NonDeductibleExpense | NonDeductibleFixedAsset
  datatype CustomsMark = NotThroughCustoms | ThroughCustoms
  datatype BondedArea = Article7Paragraph4 | Article7Paragraph7 | FreeTradeZone | OtherArea

  function InvoiceTypeCode(v: InvoiceType): string { if v.GeneralTax? then "07" else "08" }
  function DonateMarkCode(v: DonateMark): string { if v.NotDonated? then "0" else "1" }
  function PrintMarkCode(v: PrintMark): string { if v.PrintPaper? then "Y" else "N" }
  function CustomsMarkCode(v: CustomsMark): string { if v.NotThroughCustoms? then "1" else "2" }
  function TaxTypeCode(v: TaxType): string {
    match v
    case Taxable => "1"
    case ZeroRated => "2"
    case TaxFree => "3"
    case SpecialTax => "4"
    case Mixed => "9"
  }
  function TaxRateCode(v: TaxRate): string {
    match v
    case Zero => "0"
    case OnePercent => "0.01"
    case TwoPercent => "0.02"
    case FivePercent => "0.05"
    case FifteenPercent => "0.15"
    case TwentyFivePercent => "0.25"
  }
  function BuyerRemarkCode(v: BuyerRemark): string {
    match v
    case DeductibleExpense => "1"
    case DeductibleFixedAsset => "2"
    case NonDeductibleExpense => "3"
    case NonDeductibleFixedAsset => "4"
  }
  function BondedAreaCode(v: BondedArea): string {
    match v
    case Article7Paragraph4 => "1"
    case Article7Paragraph7 => "2"
    case FreeTradeZone => "3"
    case OtherArea => "4"
  }
  function ZeroTaxRateReasonCode(v: ZeroTaxRateReason): string { Decimal.Render(v) }

  function ReadInvoiceType(s: string): (r: Option<InvoiceType>)
    ensures forall v :: r == Some(v) <==> s == InvoiceTypeCode(v)
  {
    if s == "07" then Some(GeneralTax) else if s == "08" then Some(SpecialTaxInvoice) else None
  }
  function ReadDonateMark(s: string): (r: Option<DonateMark>)
    ensures forall v :: r == Some(v) <==> s == DonateMarkCode(v)
  {
    if s == "0" then Some(NotDonated) else if s == "1" then Some(Donated) else None
  }
  function ReadPrintMark(s: string): (r: Option<PrintMark>)
    ensures forall v :: r == Some(v) <==> s == PrintMarkCode(v)
  {
    if s == "Y" then Some(PrintPaper) else if s == "N" then Some(DoNotPrint) else None
  }
  function ReadCustomsMark(s: string): (r: Option<CustomsMark>)
    ensures forall v :: r == Some(v) <==> s == CustomsMarkCode(v)
  {
    if s == "1" then Some(NotThroughCustoms) else if s == "2" then Some(ThroughCustoms) else None
  }
  function ReadTaxType(s: string): (r: Option<TaxType>)
    ensures forall v :: r == Some(v) <==> s == TaxTypeCode(v)
  {
    if s == "1" then Some(Taxable) else if s == "2" then Some(ZeroRated) else if s == "3" then Some(TaxFree)
    else if s == "4" then Some(SpecialTax) else if s == "9" then Some(Mixed) else None
  }
  function ReadTaxRate(s: string): (r: Option<TaxRate>)
    ensures forall v :: r == Some(v) <==> s == TaxRateCode(v)
  {
    if s == "0" then Some(Zero) else if s == "0.01" then Some(OnePercent) else if s == "0.02" then Some(TwoPercent)
    else if s == "0.05" then Some(FivePercent) else if s == "0.15" then Some(FifteenPercent)
    else if s == "0.25" then Some(TwentyFivePercent) else None
  }
  function ReadBuyerRemark(s: string): (r: Option<BuyerRemark>)
    ensures forall v :: r == Some(v) <==> s == BuyerRemarkCode(v)
  {
    if s == "1" then Some(DeductibleExpense) else if s == "2" then Some(DeductibleFixedAsset)
    else if s == "3" then Some(NonDeductibleExpense) else if s == "4" then Some(NonDeductibleFixedAsset) else None
  }
  function ReadBondedArea(s: string): (r: Option<BondedArea>)
    ensures forall v :: r == Some(v) <==> s == BondedAreaCode(v)
  {
    if s == "1" then Some(Article7Paragraph4) else if s == "2" then Some(Article7Paragraph7)
    else if s == "3" then Some(FreeTradeZone) else if s == "4" then Some(OtherArea) else None
  }
  function ReadZeroTaxRateReason(s: string): (r: Option<ZeroTaxRateReason>)
    ensures forall v: ZeroTaxRateReason :: r == Some(v) <==> s == ZeroTaxRateReasonCode(v)
  {
    if s != "" && Decimal.AllDigits(s) && 71 <= Decimal.Value(s) <= 79 && Decimal.Render(Decimal.Value(s)) == s
    then Some(Decimal.Value(s))
    else
      assert forall v: ZeroTaxRateReason :: s != ZeroTaxRateReasonCode(v) by {
        forall v: ZeroTaxRateReason ensures s != ZeroTaxRateReasonCode(v) { Decimal.RenderValue(v); }
      }
      None
  }

  // ---------------------------------------------------------------- the document

  datatype RoleDescription = RoleDescription(
    identifier: Ban, name: string, address: Option<string>, personInCharge: Option<string>,
    telephoneNumber: Option<string>, facsimileNumber: Option<string>, emailAddress: Option<string>,
    customerNumber: Option<string>, roleRemark: Option<string>)

  datatype Main = Main(
    invoiceNumber: InvoiceNumber, invoiceDate: MigDate, invoiceTime: MigTime,
    seller: RoleDescription, buyer: RoleDescription,
    buyerRemark: Option<BuyerRemark>, mainRemark: Option<string>, customsMark: Option<CustomsMark>,
    category: Option<string>, relateNumber: Option<string>, invoiceType: InvoiceType,
    groupMark: Option<string>, donateMark: DonateMark, carrierType: Option<string>,
    carrierId1: Option<string>, carrierId2: Option<string>, printMark: PrintMark,
    npoBan: Option<Ban>, randomNumber: Option<string>, bondedArea: Option<BondedArea>,
    zeroTaxRateReason: Option<ZeroTaxRateReason>, reserved1: Option<string>, reserved2: Option<string>)

  datatype ProductItem = ProductItem(
    description: string, quantity: MigDecimal, unit: Option<string>, unitPrice: MigDecimal, taxType: TaxType,
    amount: MigDecimal, sequenceNumber: string, remark: Option<string>, relateNumber: Option<string>)

  datatype Amount = Amount(
    salesAmount: MigDecimal, freeTaxSalesAmount: MigDecimal, zeroTaxSalesAmount: MigDecimal,
    taxType: TaxType, taxRate: TaxRate, taxAmount: MigDecimal, totalAmount: MigDecimal,
    discountAmount: Option<MigDecimal>, originalCurrencyAmount: Option<MigDecimal>,
    exchangeRate: Option<MigDecimal>, currency: Option<CurrencyCode>)

  datatype StructureError = NoProductItems | TooManyProductItems(count: nat, max: nat)

  datatype Invoice = Invoice(main: Main, details: seq<ProductItem>, amount: Amount)

  /** The cardinality that `F0401Invoice::new` enforces. */
  predicate Constructed(v: Invoice) { 1 <= |v.details| <= MAX_PRODUCT_ITEMS }

  function NewInvoice(main: Main, details: seq<ProductItem>, amount: Amount): (r: Result<Invoice, StructureError>)
    ensures r.Success? <==> Constructed(Invoice(main, details, amount))
    ensures r.Success? <==> 1 <= |details| <= 9_999
    ensures r.Failure? ==> r.error == if details == [] then NoProductItems else TooManyProductItems(|details|, 9_999)
    ensures r.Success? ==> r.value == Invoice(main, details, amount)
  {
    if details == [] then Failure(NoProductItems)
    else if |details| > MAX_PRODUCT_ITEMS then Failure(TooManyProductItems(|details|, MAX_PRODUCT_ITEMS))
    else Success(Invoice(main, details, amount))
  }

  // ---------------------------------------------------------------- elements with text

  function Leaf(tag: string, value: string): Node {
    Element(tag, [], if value == "" then [] else [Text(value)])
  }

  /** `push_optional`: an absent value prints nothing, an empty one an empty element. */
  function Optional(tag: string, value: Option<string>): seq<Node> {
    if value.Some? then [Leaf(tag, value.value)] else []
  }

  function ReadLeaf(node: Node, tag: string): (r: Option<string>)
    ensures forall v :: r == Some(v) <==> node == Leaf(tag, v)
  {
    if node.Element? && node.name == tag && node.attributes == [] then
      if node.children == [] then Some("")
      else if |node.children| == 1 && node.children[0].Text? && node.children[0].value != "" then
        assert node.children == [node.children[0]];
        Some(node.children[0].value)
      else None
    else None
  }

  /** The element `tag` must come first. */
  function Take(nodes: seq<Node>, tag: string): (r: Option<(string, seq<Node>)>)
    ensures r.Some? ==> nodes == [Leaf(tag, r.value.0)] + r.value.1
  {
    if nodes == [] then None
    else
      var v :- ReadLeaf(nodes[0], tag);
      Some((v, nodes[1..]))
  }

  /** The element `tag` may come first. */
  function TakeOptional(nodes: seq<Node>, tag: string): (r: (Option<string>, seq<Node>))
    ensures nodes == Optional(tag, r.0) + r.1
  {
    if nodes != [] && ReadLeaf(nodes[0], tag).Some? then (ReadLeaf(nodes[0], tag), nodes[1..]) else (None, nodes)
  }

  /** The name of the first element, if any. */
  function Lead(nodes: seq<Node>): string {
    if nodes != [] && nodes[0].Element? then nodes[0].name else ""
  }

  lemma TakeInverts(tag: string, value: string, rest: seq<Node>)
    ensures Take([Leaf(tag, value)] + rest, tag) == Some((value, rest))
    ensures Lead([Leaf(tag, value)] + rest) == tag
  {
    assert ([Leaf(tag, value)] + rest)[1..] == rest;
  }

  lemma TakeOptionalInverts(tag: string, value: Option<string>, rest: seq<Node>)
    requires Lead(rest) != tag
    ensures TakeOptional(Optional(tag, value) + rest, tag) == (value, rest)
    ensures Lead(Optional(tag, value) + rest) == if value.Some? then tag else Lead(rest)
  {
    if value.Some? {
      TakeInverts(tag, value.value, rest);
    } else {
      assert Optional(tag, value) + rest == rest;
    }
  }

  /** An optional wire code must be readable when present. */
  function ReadOptional<T>(value: Option<string>, read: string -> Option<T>): Option<Option<T>> {
    match value
    case None => Some(None)
    case Some(s) =>
      var v :- read(s);
      Some(Some(v))
  }

  function Coded<T>(value: Option<T>, code: T -> string): Option<string> {
    match value
    case None => None
    case Some(v) => Some(code(v))
  }

  /** Reading and writing an optional code agree when they agree on every code. */
  lemma ReadOptionalExact<T>(value: Option<string>, v: Option<T>, read: string -> Option<T>, code: T -> string)
    requires forall s, t :: read(s) == Some(t) <==> s == code(t)
    ensures ReadOptional(value, read) == Some(v) <==> value == Coded(v, code)
  {
  }
}
