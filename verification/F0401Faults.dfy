/**
  The report of F0401 validation, issue by issue: what each one says about the invoice, and
  the place each one has in the report.
 */
module F0401Faults {
  import opened Wrappers
  import opened Primitives
  import opened F0401Document
  import opened F0401Validation
  import Decimal

  // ---------------------------------------------------------------- what an issue says

  predicate TooLong(s: Option<string>, max: nat) { s.Some? && |s.value| > max }

  predicate OutOfRange(s: string, max: nat) { |s| == 0 || |s| > max }

  /** The text of a party. */
  predicate RoleFault(r: RoleDescription, field: Field) {
    || (field == NameField && OutOfRange(r.name, 60))
    || (field == AddressField && TooLong(r.address, 100))
    || (field == PersonInChargeField && TooLong(r.personInCharge, 30))
    || (field == TelephoneNumberField && TooLong(r.telephoneNumber, 26))
    || (field == FacsimileNumberField && TooLong(r.facsimileNumber, 26))
    || (field == EmailAddressField && TooLong(r.emailAddress, 400))
    || (field == CustomerNumberField && TooLong(r.customerNumber, 20))
    || (field == RoleRemarkField && r.roleRemark.Some? && |r.roleRemark.value| != 40)
  }

  predicate MainFault(m: Main, field: Field) {
    || (field == MainRemarkField && TooLong(m.mainRemark, 200))
    || (field == CategoryField && TooLong(m.category, 2))
    || (field == RelateNumberField && TooLong(m.relateNumber, 20))
    || (field == GroupMarkField && m.groupMark.Some? && |m.groupMark.value| != 1)
    || (field == CarrierTypeField && TooLong(m.carrierType, 6))
    || (field == CarrierId1Field && TooLong(m.carrierId1, 400))
    || (field == CarrierId2Field && TooLong(m.carrierId2, 400))
    || (field == Reserved1Field && TooLong(m.reserved1, 20))
    || (field == Reserved2Field && TooLong(m.reserved2, 100))
  }

  predicate ItemTextFault(p: ProductItem, field: Field) {
    || (field == DescriptionField && OutOfRange(p.description, 500))
    || (field == UnitField && TooLong(p.unit, 6))
    || (field == SequenceNumberField && OutOfRange(p.sequenceNumber, 4))
    || (field == RemarkField && TooLong(p.remark, 120))
    || (field == RelateNumberField && TooLong(p.relateNumber, 50))
  }

  ghost predicate ItemNumberFault(p: ProductItem, field: Field) {
    || (field == QuantityField && !Fits(p.quantity, 20, 7, false))
    || (field == UnitPriceField && !Fits(p.unitPrice, 20, 7, false))
    || (field == ItemAmountField && !Fits(p.amount, 20, 7, false))
  }

  ghost predicate AmountFault(a: Amount, field: Field) {
    || (field == SalesAmountField && !Fits(a.salesAmount, 20, 7, true))
    || (field == FreeTaxSalesAmountField && !Fits(a.freeTaxSalesAmount, 20, 7, true))
    || (field == ZeroTaxSalesAmountField && !Fits(a.zeroTaxSalesAmount, 20, 7, true))
    || (field == TaxAmountField && !Fits(a.taxAmount, 20, 0, true))
    || (field == TotalAmountField && !Fits(a.totalAmount, 20, 7, true))
    || (field == DiscountAmountField && a.discountAmount.Some? && !Fits(a.discountAmount.value, 20, 7, true))
    || (field == OriginalCurrencyAmountField
        && a.originalCurrencyAmount.Some? && !Fits(a.originalCurrencyAmount.value, 20, 7, true))
    || (field == ExchangeRateField && a.exchangeRate.Some? && !Fits(a.exchangeRate.value, 13, 5, true))
  }

  /** An issue of the schema layer. */
  ghost predicate SchemaFault(v: Invoice, e: Issue) {
    match e.path
    case SellerPath(field) => e.code == StringLength && RoleFault(v.main.seller, field)
    case BuyerPath(field) => e.code == StringLength && RoleFault(v.main.buyer, field)
    case MainPath(field) =>
      || (e.code == StringLength && MainFault(v.main, field))
      || (e.code == RandomNumberFormat && field == RandomNumberField && v.main.randomNumber.Some?
          && !(|v.main.randomNumber.value| == 4
               && forall i :: 0 <= i < 4 ==> '0' <= v.main.randomNumber.value[i] <= '9'))
    case ItemPath(number, field) =>
      && 1 <= number <= |v.details|
      && ((e.code == StringLength && ItemTextFault(v.details[number - 1], field))
          || (e.code == DecimalConstraint && ItemNumberFault(v.details[number - 1], field)))
    case AmountPath(field) => e.code == DecimalConstraint && AmountFault(v.amount, field)
  }

  /** The buyer is a consumer: ten zeros. */
  predicate Consumer(v: Invoice) { v.main.buyer.identifier == "0000000000" }

  /** An issue of the usage notes. */
  predicate UsageFault(v: Invoice, e: Issue) {
    var m := v.main;
    match e.code
    case DateNotGregorian => e.path == MainPath(InvoiceDateField) && !IsCalendarDate(m.invoiceDate)
    case SellerAddressRequired =>
      e.path == SellerPath(AddressField) && (m.seller.address == None || m.seller.address == Some(""))
    case B2cBuyerNameInvalid =>
      e.path == BuyerPath(NameField) && Consumer(v)
      && 1 <= |m.buyer.name| <= 4 && forall c :: c in m.buyer.name ==> c == '0'
    case B2cRandomNumberRequired => e.path == MainPath(RandomNumberField) && Consumer(v) && m.randomNumber == None
    case B2bRandomNumberForbidden => e.path == MainPath(RandomNumberField) && !Consumer(v) && m.randomNumber != None
    case PrintWithCarrier =>
      e.path == MainPath(PrintMarkField) && m.printMark == PrintPaper
      && (m.carrierType != None || m.carrierId1 != None || m.carrierId2 != None)
    case PrintDonationConflict =>
      e.path == MainPath(DonateMarkField) && m.printMark == PrintPaper && m.donateMark != NotDonated
    case ZeroRateReasonRequired =>
      e.path == MainPath(ZeroTaxRateReasonField) && m.zeroTaxRateReason == None
      && (v.amount.taxType == ZeroRated || exists p :: p in v.details && p.taxType == ZeroRated)
    case ProductMixedTaxForbidden =>
      e.path.ItemPath? && e.path.field == TaxTypeField && 1 <= e.path.number <= |v.details|
      && v.details[e.path.number - 1].taxType == Mixed
    case SequenceNotContiguous =>
      e.path.ItemPath? && e.path.field == SequenceNumberField && 1 <= e.path.number <= |v.details|
      && v.details[e.path.number - 1].sequenceNumber != Decimal.Render(e.path.number)
    case _ => false
  }

  // ---------------------------------------------------------------- schema layer

  ghost predicate BrokenIn(rules: seq<Rule>, e: Issue) { Rule(e, false) in rules }

  lemma InConcat(a: seq<Rule>, b: seq<Rule>, e: Issue)
    ensures BrokenIn(a + b, e) <==> BrokenIn(a, e) || BrokenIn(b, e)
  {
  }

  lemma MaxBroken(value: Option<string>, max: nat, path: Path, e: Issue)
    ensures Rule(e, false) == Max(value, max, path) <==> e == Issue(path, StringLength) && TooLong(value, max)
  {
  }

  lemma RequiredMaxBroken(value: string, max: nat, path: Path, e: Issue)
    ensures Rule(e, false) == RequiredMax(value, max, path) <==>
            e == Issue(path, StringLength) && OutOfRange(value, max)
  {
  }

  lemma ExactBroken(value: Option<string>, length: nat, path: Path, e: Issue)
    ensures Rule(e, false) == Exact(value, length, path) <==>
            e == Issue(path, StringLength) && value.Some? && |value.value| != length
  {
  }

  lemma DecimalRuleBroken(value: MigDecimal, total: nat, fraction: nat, nonNegative: bool, path: Path, e: Issue)
    ensures Rule(e, false) == DecimalRule(value, total, fraction, nonNegative, path) <==>
            e == Issue(path, DecimalConstraint) && !Fits(value, total, fraction, nonNegative)
  {
    hide Fits, IsDecimal, ParseDecimal;
    DecimalRuleExact(value, total, fraction, nonNegative, path);
  }

  lemma RoleIssues(r: RoleDescription, seller: bool, e: Issue)
    ensures BrokenIn(RoleRules(r, seller), e) <==>
            && e.code == StringLength
            && (if seller then e.path.SellerPath? else e.path.BuyerPath?) && RoleFault(r, e.path.field)
  {
    hide RequiredMax, Max, Exact, DecimalRule, TooLong, OutOfRange, Fits, IsDecimal, IsFourDigits;
    RequiredMaxBroken(r.name, 60, RolePath(seller, NameField), e);
    MaxBroken(r.address, 100, RolePath(seller, AddressField), e);
    MaxBroken(r.personInCharge, 30, RolePath(seller, PersonInChargeField), e);
    MaxBroken(r.telephoneNumber, 26, RolePath(seller, TelephoneNumberField), e);
    MaxBroken(r.facsimileNumber, 26, RolePath(seller, FacsimileNumberField), e);
    MaxBroken(r.emailAddress, 400, RolePath(seller, EmailAddressField), e);
    MaxBroken(r.customerNumber, 20, RolePath(seller, CustomerNumberField), e);
    ExactBroken(r.roleRemark, 40, RolePath(seller, RoleRemarkField), e);
    var rules := RoleRules(r, seller);
    assert forall x :: x in rules <==>
      x == rules[0] || x == rules[1] || x == rules[2] || x == rules[3] || x == rules[4] || x == rules[5]
      || x == rules[6] || x == rules[7];
  }

  lemma MainTextIssues(m: Main, e: Issue)
    ensures BrokenIn(MainTextRules(m), e) <==>
            && e.path.MainPath?
            && ((e.code == StringLength && MainFault(m, e.path.field))
                || (e.code == RandomNumberFormat && e.path.field == RandomNumberField && m.randomNumber.Some?
                    && !IsFourDigits(m.randomNumber.value)))
  {
    hide RequiredMax, Max, Exact, DecimalRule, TooLong, OutOfRange, Fits, IsDecimal, IsFourDigits;
    MaxBroken(m.mainRemark, 200, MainPath(MainRemarkField), e);
    MaxBroken(m.category, 2, MainPath(CategoryField), e);
    MaxBroken(m.relateNumber, 20, MainPath(RelateNumberField), e);
    ExactBroken(m.groupMark, 1, MainPath(GroupMarkField), e);
    MaxBroken(m.carrierType, 6, MainPath(CarrierTypeField), e);
    MaxBroken(m.carrierId1, 400, MainPath(CarrierId1Field), e);
    MaxBroken(m.carrierId2, 400, MainPath(CarrierId2Field), e);
    MaxBroken(m.reserved1, 20, MainPath(Reserved1Field), e);
    MaxBroken(m.reserved2, 100, MainPath(Reserved2Field), e);
    var rules := MainTextRules(m);
    assert forall x :: x in rules <==>
      x == rules[0] || x == rules[1] || x == rules[2] || x == rules[3] || x == rules[4] || x == rules[5]
      || x == rules[6] || x == rules[7] || x == rules[8] || x == rules[9];
  }

  lemma ItemIssues(p: ProductItem, number: nat, e: Issue)
    ensures BrokenIn(ItemRules(p, number), e) <==>
            && e.path.ItemPath? && e.path.number == number
            && ((e.code == StringLength && ItemTextFault(p, e.path.field))
                || (e.code == DecimalConstraint && ItemNumberFault(p, e.path.field)))
  {
    hide RequiredMax, Max, Exact, DecimalRule, TooLong, OutOfRange, Fits, IsDecimal, IsFourDigits;
    RequiredMaxBroken(p.description, 500, ItemPath(number, DescriptionField), e);
    MaxBroken(p.unit, 6, ItemPath(number, UnitField), e);
    RequiredMaxBroken(p.sequenceNumber, 4, ItemPath(number, SequenceNumberField), e);
    MaxBroken(p.remark, 120, ItemPath(number, RemarkField), e);
    MaxBroken(p.relateNumber, 50, ItemPath(number, RelateNumberField), e);
    DecimalRuleBroken(p.quantity, 20, 7, false, ItemPath(number, QuantityField), e);
    DecimalRuleBroken(p.unitPrice, 20, 7, false, ItemPath(number, UnitPriceField), e);
    DecimalRuleBroken(p.amount, 20, 7, false, ItemPath(number, ItemAmountField), e);
    var rules := ItemRules(p, number);
    assert forall x :: x in rules <==>
      x == rules[0] || x == rules[1] || x == rules[2] || x == rules[3] || x == rules[4] || x == rules[5]
      || x == rules[6] || x == rules[7];
  }

  lemma {:induction false} DetailIssues(items: seq<ProductItem>, e: Issue)
    ensures BrokenIn(DetailRules(items), e) <==>
            && e.path.ItemPath? && 1 <= e.path.number <= |items|
            && ((e.code == StringLength && ItemTextFault(items[e.path.number - 1], e.path.field))
                || (e.code == DecimalConstraint && ItemNumberFault(items[e.path.number - 1], e.path.field)))
  {
    hide ItemRules, ItemTextFault, ItemNumberFault, BrokenIn;
    if items == [] {
      NothingBrokenIn(e);
    } else {
      var last := |items| - 1;
      DetailIssues(items[..last], e);
      ItemIssues(items[last], |items|, e);
      InConcat(DetailRules(items[..last]), ItemRules(items[last], |items|), e);
    }
  }

  lemma NothingBrokenIn(e: Issue)
    ensures !BrokenIn([], e)
  {
  }

  lemma SumIssues(a: Amount, e: Issue)
    ensures BrokenIn(SumRules(a), e) <==>
            && e.path.AmountPath? && e.code == DecimalConstraint
            && e.path.field in {SalesAmountField, FreeTaxSalesAmountField, ZeroTaxSalesAmountField, TaxAmountField,
                                TotalAmountField}
            && AmountFault(a, e.path.field)
  {
    hide RequiredMax, Max, Exact, DecimalRule, TooLong, OutOfRange, Fits, IsDecimal, IsFourDigits;
    DecimalRuleBroken(a.salesAmount, 20, 7, true, AmountPath(SalesAmountField), e);
    DecimalRuleBroken(a.freeTaxSalesAmount, 20, 7, true, AmountPath(FreeTaxSalesAmountField), e);
    DecimalRuleBroken(a.zeroTaxSalesAmount, 20, 7, true, AmountPath(ZeroTaxSalesAmountField), e);
    DecimalRuleBroken(a.taxAmount, 20, 0, true, AmountPath(TaxAmountField), e);
    DecimalRuleBroken(a.totalAmount, 20, 7, true, AmountPath(TotalAmountField), e);
    var rules := SumRules(a);
    assert forall x :: x in rules <==>
      x == rules[0] || x == rules[1] || x == rules[2] || x == rules[3] || x == rules[4];
  }

  lemma OptionalIssue(value: Option<MigDecimal>, total: nat, fraction: nat, path: Path, e: Issue)
    ensures BrokenIn(OptionalDecimalRule(value, total, fraction, path), e) <==>
            e == Issue(path, DecimalConstraint) && value.Some? && !Fits(value.value, total, fraction, true)
  {
    hide Fits, IsDecimal, ParseDecimal;
    if value.Some? {
      DecimalRuleExact(value.value, total, fraction, true, path);
    }
  }

  lemma AmountFaultParts(a: Amount, field: Field)
    ensures AmountFault(a, field) <==>
            || (field in {SalesAmountField, FreeTaxSalesAmountField, ZeroTaxSalesAmountField, TaxAmountField,
                          TotalAmountField} && AmountFault(a, field))
            || (field == DiscountAmountField && a.discountAmount.Some? && !Fits(a.discountAmount.value, 20, 7, true))
            || (field == OriginalCurrencyAmountField && a.originalCurrencyAmount.Some?
                && !Fits(a.originalCurrencyAmount.value, 20, 7, true))
            || (field == ExchangeRateField && a.exchangeRate.Some? && !Fits(a.exchangeRate.value, 13, 5, true))
  {
    hide Fits;
  }

  lemma AmountIssues(a: Amount, e: Issue)
    ensures BrokenIn(AmountRules(a), e) <==>
            e.path.AmountPath? && e.code == DecimalConstraint && AmountFault(a, e.path.field)
  {
    hide SumRules, OptionalDecimalRule, Fits, BrokenIn, AmountFault;
    if e.path.AmountPath? {
      AmountFaultParts(a, e.path.field);
    }
    var sums := SumRules(a);
    var discount := OptionalDecimalRule(a.discountAmount, 20, 7, AmountPath(DiscountAmountField));
    var original := OptionalDecimalRule(a.originalCurrencyAmount, 20, 7, AmountPath(OriginalCurrencyAmountField));
    var rate := OptionalDecimalRule(a.exchangeRate, 13, 5, AmountPath(ExchangeRateField));
    SumIssues(a, e);
    OptionalIssue(a.discountAmount, 20, 7, AmountPath(DiscountAmountField), e);
    OptionalIssue(a.originalCurrencyAmount, 20, 7, AmountPath(OriginalCurrencyAmountField), e);
    OptionalIssue(a.exchangeRate, 13, 5, AmountPath(ExchangeRateField), e);
    InConcat(sums, discount, e);
    InConcat(sums + discount, original, e);
    InConcat(sums + discount + original, rate, e);
  }

  lemma FourDigits(s: string)
    ensures IsFourDigits(s) <==> |s| == 4 && forall i :: 0 <= i < 4 ==> '0' <= s[i] <= '9'
  {
  }

  lemma SchemaIssues(v: Invoice, e: Issue)
    ensures BrokenIn(SchemaRules(v), e) <==> SchemaFault(v, e)
  {
    hide BrokenIn, RoleRules, MainTextRules, DetailRules, AmountRules, IsFourDigits;
    hide RoleFault, MainFault, ItemTextFault, ItemNumberFault, AmountFault;
    RoleIssues(v.main.seller, true, e);
    RoleIssues(v.main.buyer, false, e);
    MainTextIssues(v.main, e);
    DetailIssues(v.details, e);
    AmountIssues(v.amount, e);
    if v.main.randomNumber.Some? {
      FourDigits(v.main.randomNumber.value);
    }
    var roles := RoleRules(v.main.seller, true) + RoleRules(v.main.buyer, false);
    InConcat(RoleRules(v.main.seller, true), RoleRules(v.main.buyer, false), e);
    InConcat(roles, MainTextRules(v.main), e);
    InConcat(roles + MainTextRules(v.main), DetailRules(v.details), e);
    InConcat(roles + MainTextRules(v.main) + DetailRules(v.details), AmountRules(v.amount), e);
  }

  // ---------------------------------------------------------------- usage notes

  lemma PlaceholderExactly(name: string)
    ensures IsPlaceholder(name) <==> 1 <= |name| <= 4 && forall c :: c in name ==> c == '0'
  {
    if 1 <= |name| <= 4 && forall c :: c in name ==> c == '0' {
      assert forall i :: 0 <= i < |name| ==> name[i] in name;
      assert name == "0" || name == "00" || name == "000" || name == "0000";
    }
  }

  lemma PartyIssues(v: Invoice, e: Issue)
    ensures BrokenIn(PartyRules(v), e) <==>
            e.code in {DateNotGregorian, SellerAddressRequired, B2cBuyerNameInvalid, B2cRandomNumberRequired,
                       B2bRandomNumberForbidden} && UsageFault(v, e)
  {
    hide IsCalendarDate, IsPlaceholder;
    PlaceholderExactly(v.main.buyer.name);
    var rules := PartyRules(v);
    assert forall x :: x in rules <==>
      x == rules[0] || x == rules[1] || x == rules[2] || x == rules[3] || x == rules[4];
  }

  lemma ZeroRatedExactly(v: Invoice)
    ensures IsZeroRated(v) <==> v.amount.taxType == ZeroRated || exists p :: p in v.details && p.taxType == ZeroRated
  {
  }

  lemma PrintIssues(v: Invoice, e: Issue)
    ensures BrokenIn(PrintRules(v), e) <==>
            e.code in {PrintWithCarrier, PrintDonationConflict, ZeroRateReasonRequired} && UsageFault(v, e)
  {
    hide IsZeroRated;
    ZeroRatedExactly(v);
    var rules := PrintRules(v);
    assert forall x :: x in rules <==>
      x == rules[0] || x == rules[1] || x == rules[2];
  }

  lemma ItemUsageIssues(p: ProductItem, number: nat, e: Issue)
    ensures BrokenIn(ItemSemanticRules(p, number), e) <==>
            && e.path.ItemPath? && e.path.number == number
            && ((e.code == ProductMixedTaxForbidden && e.path.field == TaxTypeField && p.taxType == Mixed)
                || (e.code == SequenceNotContiguous && e.path.field == SequenceNumberField
                    && p.sequenceNumber != Decimal.Render(number)))
  {
    hide Decimal.Render;
    var rules := ItemSemanticRules(p, number);
    assert forall x :: x in rules <==> x == rules[0] || x == rules[1];
  }

  lemma {:induction false} DetailUsageIssues(items: seq<ProductItem>, e: Issue)
    ensures BrokenIn(DetailSemanticRules(items), e) <==>
            && e.path.ItemPath? && 1 <= e.path.number <= |items|
            && ((e.code == ProductMixedTaxForbidden && e.path.field == TaxTypeField
                 && items[e.path.number - 1].taxType == Mixed)
                || (e.code == SequenceNotContiguous && e.path.field == SequenceNumberField
                    && items[e.path.number - 1].sequenceNumber != Decimal.Render(e.path.number)))
  {
    hide ItemSemanticRules, BrokenIn, Decimal.Render;
    if items == [] {
      NothingBrokenIn(e);
    } else {
      var last := |items| - 1;
      DetailUsageIssues(items[..last], e);
      ItemUsageIssues(items[last], |items|, e);
      InConcat(DetailSemanticRules(items[..last]), ItemSemanticRules(items[last], |items|), e);
    }
  }

  lemma UsageIssues(v: Invoice, e: Issue)
    ensures BrokenIn(SemanticRules(v), e) <==> UsageFault(v, e)
  {
    hide BrokenIn, PartyRules, PrintRules, DetailSemanticRules, IsCalendarDate, Decimal.Render;
    PartyIssues(v, e);
    PrintIssues(v, e);
    DetailUsageIssues(v.details, e);
    InConcat(PartyRules(v), PrintRules(v), e);
    InConcat(PartyRules(v) + PrintRules(v), DetailSemanticRules(v.details), e);
  }

  // ---------------------------------------------------------------- the order of the report

  /** Where an issue stands: section, number of the item, position within. */
  function Place(e: Issue): (nat, nat, nat) {
    match e.code
    case DateNotGregorian => (5, 0, 0)
    case SellerAddressRequired => (5, 0, 1)
    case B2cBuyerNameInvalid => (5, 0, 2)
    case B2cRandomNumberRequired => (5, 0, 3)
    case B2bRandomNumberForbidden => (5, 0, 4)
    case PrintWithCarrier => (5, 0, 5)
    case PrintDonationConflict => (5, 0, 6)
    case ZeroRateReasonRequired => (5, 0, 7)
    case ProductMixedTaxForbidden => (6, if e.path.ItemPath? then e.path.number else 0, 0)
    case SequenceNotContiguous => (6, if e.path.ItemPath? then e.path.number else 0, 1)
    case _ =>
      match e.path
      case SellerPath(field) => (0, 0, RolePlace(field))
      case BuyerPath(field) => (1, 0, RolePlace(field))
      case MainPath(field) => (2, 0, MainPlace(field))
      case ItemPath(number, field) => (3, number, ItemPlace(field))
      case AmountPath(field) => (4, 0, AmountPlace(field))
  }

  function RolePlace(field: Field): nat {
    if field == NameField then 0 else if field == AddressField then 1 else
    if field == PersonInChargeField then 2 else if field == TelephoneNumberField then 3 else
    if field == FacsimileNumberField then 4 else if field == EmailAddressField then 5 else
    if field == CustomerNumberField then 6 else 7
  }

  function MainPlace(field: Field): nat {
    if field == MainRemarkField then 0 else if field == CategoryField then 1 else
    if field == RelateNumberField then 2 else if field == GroupMarkField then 3 else
    if field == CarrierTypeField then 4 else if field == CarrierId1Field then 5 else
    if field == CarrierId2Field then 6 else if field == Reserved1Field then 7 else
    if field == Reserved2Field then 8 else 9
  }

  function ItemPlace(field: Field): nat {
    if field == DescriptionField then 0 else if field == UnitField then 1 else
    if field == SequenceNumberField then 2 else if field == RemarkField then 3 else
    if field == RelateNumberField then 4 else if field == QuantityField then 5 else
    if field == UnitPriceField then 6 else 7
  }

  function AmountPlace(field: Field): nat {
    if field == SalesAmountField then 0 else if field == FreeTaxSalesAmountField then 1 else
    if field == ZeroTaxSalesAmountField then 2 else if field == TaxAmountField then 3 else
    if field == TotalAmountField then 4 else if field == DiscountAmountField then 5 else
    if field == OriginalCurrencyAmountField then 6 else 7
  }

  predicate Earlier(a: (nat, nat, nat), b: (nat, nat, nat)) {
    a.0 < b.0 || (a.0 == b.0 && (a.1 < b.1 || (a.1 == b.1 && a.2 < b.2)))
  }

  predicate RulesInOrder(rules: seq<Rule>) {
    forall i, j :: 0 <= i < j < |rules| ==> Earlier(Place(rules[i].issue), Place(rules[j].issue))
  }

  predicate InOrder(issues: seq<Issue>) {
    forall i, j :: 0 <= i < j < |issues| ==> Earlier(Place(issues[i]), Place(issues[j]))
  }

  /** All places of the rules lie from one place to another. */
  predicate Within(rules: seq<Rule>, low: (nat, nat, nat), high: (nat, nat, nat)) {
    forall r :: r in rules ==> !Earlier(Place(r.issue), low) && Earlier(Place(r.issue), high)
  }

  lemma OrderConcat(a: seq<Rule>, b: seq<Rule>, low: (nat, nat, nat), middle: (nat, nat, nat), high: (nat, nat, nat))
    requires RulesInOrder(a) && RulesInOrder(b) && Within(a, low, middle) && Within(b, middle, high)
    requires !Earlier(middle, low) && !Earlier(high, middle)
    ensures RulesInOrder(a + b) && Within(a + b, low, high)
  {
    hide Place;
    var c := a + b;
    forall i, j | 0 <= i < j < |c|
      ensures Earlier(Place(c[i].issue), Place(c[j].issue))
    {
      assert c[i] == (if i < |a| then a[i] else b[i - |a|]) && c[j] == (if j < |a| then a[j] else b[j - |a|]);
      if i < |a| <= j {
        assert a[i] in a && b[j - |a|] in b;
      }
    }
  }

  /** Rules of one section and item, each at its own index. */
  lemma Numbered(rules: seq<Rule>, section: nat, number: nat, first: nat)
    requires forall i :: 0 <= i < |rules| ==> Place(rules[i].issue) == (section, number, first + i)
    ensures RulesInOrder(rules) && Within(rules, (section, number, first), (section, number, first + |rules|))
  {
    hide Place;
  }

  lemma EarlyRolePlaces(seller: bool)
    ensures var s := if seller then 0 else 1;
            && Place(Issue(RolePath(seller, NameField), StringLength)) == (s, 0, 0)
            && Place(Issue(RolePath(seller, AddressField), StringLength)) == (s, 0, 1)
            && Place(Issue(RolePath(seller, PersonInChargeField), StringLength)) == (s, 0, 2)
            && Place(Issue(RolePath(seller, TelephoneNumberField), StringLength)) == (s, 0, 3)
  {
    hide MainPlace, ItemPlace, AmountPlace;
  }

  lemma LateRolePlaces(seller: bool)
    ensures var s := if seller then 0 else 1;
            && Place(Issue(RolePath(seller, FacsimileNumberField), StringLength)) == (s, 0, 4)
            && Place(Issue(RolePath(seller, EmailAddressField), StringLength)) == (s, 0, 5)
            && Place(Issue(RolePath(seller, CustomerNumberField), StringLength)) == (s, 0, 6)
            && Place(Issue(RolePath(seller, RoleRemarkField), StringLength)) == (s, 0, 7)
  {
    hide MainPlace, ItemPlace, AmountPlace;
  }

  lemma EarlyRolePlaced(r: RoleDescription, seller: bool)
    ensures var rules, s := RoleRules(r, seller), if seller then 0 else 1;
            && Place(rules[0].issue) == (s, 0, 0)
            && Place(rules[1].issue) == (s, 0, 1)
            && Place(rules[2].issue) == (s, 0, 2)
            && Place(rules[3].issue) == (s, 0, 3)
  {
    hide Place, RolePath, RequiredMax, Max, Exact;
    EarlyRolePlaces(seller);
    RequiredMaxAt(r.name, 60, RolePath(seller, NameField));
    MaxAt(r.address, 100, RolePath(seller, AddressField));
    MaxAt(r.personInCharge, 30, RolePath(seller, PersonInChargeField));
    MaxAt(r.telephoneNumber, 26, RolePath(seller, TelephoneNumberField));
  }

  lemma LateRolePlaced(r: RoleDescription, seller: bool)
    ensures var rules, s := RoleRules(r, seller), if seller then 0 else 1;
            && Place(rules[4].issue) == (s, 0, 4)
            && Place(rules[5].issue) == (s, 0, 5)
            && Place(rules[6].issue) == (s, 0, 6)
            && Place(rules[7].issue) == (s, 0, 7)
  {
    hide Place, RolePath, RequiredMax, Max, Exact;
    LateRolePlaces(seller);
    MaxAt(r.facsimileNumber, 26, RolePath(seller, FacsimileNumberField));
    MaxAt(r.emailAddress, 400, RolePath(seller, EmailAddressField));
    MaxAt(r.customerNumber, 20, RolePath(seller, CustomerNumberField));
    ExactAt(r.roleRemark, 40, RolePath(seller, RoleRemarkField));
  }

  lemma EightRoleRules(r: RoleDescription, seller: bool)
    ensures |RoleRules(r, seller)| == 8
  {
  }

  lemma RolesOrdered(r: RoleDescription, seller: bool)
    ensures var s := if seller then 0 else 1;
            RulesInOrder(RoleRules(r, seller)) && Within(RoleRules(r, seller), (s, 0, 0), (s, 0, 8))
  {
    hide RoleRules, RulesInOrder, Within, Place;
    EightRoleRules(r, seller);
    EarlyRolePlaced(r, seller);
    LateRolePlaced(r, seller);
    Numbered(RoleRules(r, seller), if seller then 0 else 1, 0, 0);
  }

  lemma MaxAt(value: Option<string>, max: nat, path: Path)
    ensures Max(value, max, path).issue == Issue(path, StringLength)
  {
  }

  lemma RequiredMaxAt(value: string, max: nat, path: Path)
    ensures RequiredMax(value, max, path).issue == Issue(path, StringLength)
  {
  }

  lemma ExactAt(value: Option<string>, length: nat, path: Path)
    ensures Exact(value, length, path).issue == Issue(path, StringLength)
  {
  }

  lemma DecimalRuleAt(value: MigDecimal, total: nat, fraction: nat, nonNegative: bool, path: Path)
    ensures DecimalRule(value, total, fraction, nonNegative, path).issue == Issue(path, DecimalConstraint)
  {
    hide ParseDecimal, IsDecimal;
  }

  lemma MainIssuePlace(field: Field, code: Code)
    requires code == StringLength || code == RandomNumberFormat
    ensures Place(Issue(MainPath(field), code)) == (2, 0, MainPlace(field))
  {
    hide MainPlace;
  }

  lemma EarlyTextPlaces()
    ensures Place(Issue(MainPath(MainRemarkField), StringLength)) == (2, 0, 0)
    ensures Place(Issue(MainPath(CategoryField), StringLength)) == (2, 0, 1)
    ensures Place(Issue(MainPath(RelateNumberField), StringLength)) == (2, 0, 2)
    ensures Place(Issue(MainPath(GroupMarkField), StringLength)) == (2, 0, 3)
    ensures Place(Issue(MainPath(CarrierTypeField), StringLength)) == (2, 0, 4)
  {
    hide Place;
    MainIssuePlace(MainRemarkField, StringLength);
    MainIssuePlace(CategoryField, StringLength);
    MainIssuePlace(RelateNumberField, StringLength);
    MainIssuePlace(GroupMarkField, StringLength);
    MainIssuePlace(CarrierTypeField, StringLength);
  }

  lemma LateTextPlaces()
    ensures Place(Issue(MainPath(CarrierId1Field), StringLength)) == (2, 0, 5)
    ensures Place(Issue(MainPath(CarrierId2Field), StringLength)) == (2, 0, 6)
    ensures Place(Issue(MainPath(Reserved1Field), StringLength)) == (2, 0, 7)
    ensures Place(Issue(MainPath(Reserved2Field), StringLength)) == (2, 0, 8)
    ensures Place(Issue(MainPath(RandomNumberField), RandomNumberFormat)) == (2, 0, 9)
  {
    hide Place;
    MainIssuePlace(CarrierId1Field, StringLength);
    MainIssuePlace(CarrierId2Field, StringLength);
    MainIssuePlace(Reserved1Field, StringLength);
    MainIssuePlace(Reserved2Field, StringLength);
    MainIssuePlace(RandomNumberField, RandomNumberFormat);
  }

  lemma EarlyTextsPlaced(m: Main)
    ensures var rules := MainTextRules(m);
            && Place(rules[0].issue) == (2, 0, 0)
            && Place(rules[1].issue) == (2, 0, 1)
            && Place(rules[2].issue) == (2, 0, 2)
            && Place(rules[3].issue) == (2, 0, 3)
            && Place(rules[4].issue) == (2, 0, 4)
  {
    hide Place, RequiredMax, Max, Exact, DecimalRule, IsFourDigits;
    EarlyTextPlaces();
    MaxAt(m.mainRemark, 200, MainPath(MainRemarkField));
    MaxAt(m.category, 2, MainPath(CategoryField));
    MaxAt(m.relateNumber, 20, MainPath(RelateNumberField));
    ExactAt(m.groupMark, 1, MainPath(GroupMarkField));
    MaxAt(m.carrierType, 6, MainPath(CarrierTypeField));
  }

  lemma LateTextsPlaced(m: Main)
    ensures var rules := MainTextRules(m);
            && Place(rules[5].issue) == (2, 0, 5)
            && Place(rules[6].issue) == (2, 0, 6)
            && Place(rules[7].issue) == (2, 0, 7)
            && Place(rules[8].issue) == (2, 0, 8)
            && Place(rules[9].issue) == (2, 0, 9)
  {
    hide Place, RequiredMax, Max, Exact, DecimalRule, IsFourDigits;
    LateTextPlaces();
    MaxAt(m.carrierId1, 400, MainPath(CarrierId1Field));
    MaxAt(m.carrierId2, 400, MainPath(CarrierId2Field));
    MaxAt(m.reserved1, 20, MainPath(Reserved1Field));
    MaxAt(m.reserved2, 100, MainPath(Reserved2Field));
  }

  lemma TenTexts(m: Main)
    ensures |MainTextRules(m)| == 10
  {
  }

  lemma MainTextsOrdered(m: Main)
    ensures RulesInOrder(MainTextRules(m)) && Within(MainTextRules(m), (2, 0, 0), (2, 0, 10))
  {
    hide MainTextRules, RulesInOrder, Within, Place;
    TenTexts(m);
    EarlyTextsPlaced(m);
    LateTextsPlaced(m);
    Numbered(MainTextRules(m), 2, 0, 0);
  }

  lemma EarlyItemPlaces(number: nat)
    ensures Place(Issue(ItemPath(number, DescriptionField), StringLength)) == (3, number, 0)
    ensures Place(Issue(ItemPath(number, UnitField), StringLength)) == (3, number, 1)
    ensures Place(Issue(ItemPath(number, SequenceNumberField), StringLength)) == (3, number, 2)
    ensures Place(Issue(ItemPath(number, RemarkField), StringLength)) == (3, number, 3)
  {
    hide RolePlace, MainPlace, AmountPlace;
  }

  lemma LateItemPlaces(number: nat)
    ensures Place(Issue(ItemPath(number, RelateNumberField), StringLength)) == (3, number, 4)
    ensures Place(Issue(ItemPath(number, QuantityField), DecimalConstraint)) == (3, number, 5)
    ensures Place(Issue(ItemPath(number, UnitPriceField), DecimalConstraint)) == (3, number, 6)
    ensures Place(Issue(ItemPath(number, ItemAmountField), DecimalConstraint)) == (3, number, 7)
  {
    hide RolePlace, MainPlace, AmountPlace;
  }

  lemma EarlyItemPlaced(p: ProductItem, number: nat)
    ensures var rules := ItemRules(p, number);
            && Place(rules[0].issue) == (3, number, 0)
            && Place(rules[1].issue) == (3, number, 1)
            && Place(rules[2].issue) == (3, number, 2)
            && Place(rules[3].issue) == (3, number, 3)
  {
    hide Place, RequiredMax, Max, Exact, DecimalRule, IsFourDigits;
    EarlyItemPlaces(number);
    RequiredMaxAt(p.description, 500, ItemPath(number, DescriptionField));
    MaxAt(p.unit, 6, ItemPath(number, UnitField));
    RequiredMaxAt(p.sequenceNumber, 4, ItemPath(number, SequenceNumberField));
    MaxAt(p.remark, 120, ItemPath(number, RemarkField));
  }

  lemma LateItemPlaced(p: ProductItem, number: nat)
    ensures var rules := ItemRules(p, number);
            && Place(rules[4].issue) == (3, number, 4)
            && Place(rules[5].issue) == (3, number, 5)
            && Place(rules[6].issue) == (3, number, 6)
            && Place(rules[7].issue) == (3, number, 7)
  {
    hide Place, RequiredMax, Max, Exact, DecimalRule, IsFourDigits;
    LateItemPlaces(number);
    MaxAt(p.relateNumber, 50, ItemPath(number, RelateNumberField));
    DecimalRuleAt(p.quantity, 20, 7, false, ItemPath(number, QuantityField));
    DecimalRuleAt(p.unitPrice, 20, 7, false, ItemPath(number, UnitPriceField));
    DecimalRuleAt(p.amount, 20, 7, false, ItemPath(number, ItemAmountField));
  }

  lemma EightItemRules(p: ProductItem, number: nat)
    ensures |ItemRules(p, number)| == 8
  {
  }

  lemma ItemOrdered(p: ProductItem, number: nat)
    ensures RulesInOrder(ItemRules(p, number)) && Within(ItemRules(p, number), (3, number, 0), (3, number, 8))
  {
    hide ItemRules, RulesInOrder, Within, Place;
    EightItemRules(p, number);
    EarlyItemPlaced(p, number);
    LateItemPlaced(p, number);
    Numbered(ItemRules(p, number), 3, number, 0);
  }

  lemma Widened(rules: seq<Rule>, low: (nat, nat, nat), high: (nat, nat, nat), lower: (nat, nat, nat),
                higher: (nat, nat, nat))
    requires Within(rules, low, high) && !Earlier(low, lower) && !Earlier(higher, high)
    ensures Within(rules, lower, higher)
  {
    hide Place;
  }

  lemma {:induction false} DetailsOrdered(items: seq<ProductItem>)
    ensures RulesInOrder(DetailRules(items)) && Within(DetailRules(items), (3, 0, 0), (3, |items| + 1, 0))
  {
    hide RulesInOrder, Within, ItemRules;
    if items == [] {
      NothingOrdered((3, 0, 0), (3, 1, 0));
    } else {
      var last := |items| - 1;
      DetailsOrdered(items[..last]);
      ItemOrdered(items[last], |items|);
      Widened(ItemRules(items[last], |items|), (3, |items|, 0), (3, |items|, 8), (3, |items|, 0), (3, |items| + 1, 0));
      OrderConcat(DetailRules(items[..last]), ItemRules(items[last], |items|), (3, 0, 0), (3, |items|, 0),
                  (3, |items| + 1, 0));
    }
  }

  lemma NothingOrdered(low: (nat, nat, nat), high: (nat, nat, nat))
    ensures RulesInOrder([]) && Within([], low, high)
  {
  }

  lemma SumPlaces()
    ensures Place(Issue(AmountPath(SalesAmountField), DecimalConstraint)) == (4, 0, 0)
    ensures Place(Issue(AmountPath(FreeTaxSalesAmountField), DecimalConstraint)) == (4, 0, 1)
    ensures Place(Issue(AmountPath(ZeroTaxSalesAmountField), DecimalConstraint)) == (4, 0, 2)
  {
    hide RolePlace, MainPlace, ItemPlace;
  }

  lemma TaxPlaces()
    ensures Place(Issue(AmountPath(TaxAmountField), DecimalConstraint)) == (4, 0, 3)
    ensures Place(Issue(AmountPath(TotalAmountField), DecimalConstraint)) == (4, 0, 4)
  {
    hide RolePlace, MainPlace, ItemPlace;
  }

  lemma SumsPlaced(a: Amount)
    ensures var rules := SumRules(a);
            && Place(rules[0].issue) == (4, 0, 0)
            && Place(rules[1].issue) == (4, 0, 1)
            && Place(rules[2].issue) == (4, 0, 2)
            && Place(rules[3].issue) == (4, 0, 3)
            && Place(rules[4].issue) == (4, 0, 4)
  {
    hide Place, RequiredMax, Max, Exact, DecimalRule, IsFourDigits;
    SumPlaces();
    TaxPlaces();
    DecimalRuleAt(a.salesAmount, 20, 7, true, AmountPath(SalesAmountField));
    DecimalRuleAt(a.freeTaxSalesAmount, 20, 7, true, AmountPath(FreeTaxSalesAmountField));
    DecimalRuleAt(a.zeroTaxSalesAmount, 20, 7, true, AmountPath(ZeroTaxSalesAmountField));
    DecimalRuleAt(a.taxAmount, 20, 0, true, AmountPath(TaxAmountField));
    DecimalRuleAt(a.totalAmount, 20, 7, true, AmountPath(TotalAmountField));
  }

  lemma FiveSumRules(a: Amount)
    ensures |SumRules(a)| == 5
  {
  }

  lemma SumsOrdered(a: Amount)
    ensures RulesInOrder(SumRules(a)) && Within(SumRules(a), (4, 0, 0), (4, 0, 5))
  {
    hide SumRules, RulesInOrder, Within, Place;
    FiveSumRules(a);
    SumsPlaced(a);
    Numbered(SumRules(a), 4, 0, 0);
  }

  lemma OptionalOrdered(value: Option<MigDecimal>, total: nat, fraction: nat, field: Field)
    ensures var rules := OptionalDecimalRule(value, total, fraction, AmountPath(field));
            var k := AmountPlace(field);
            RulesInOrder(rules) && Within(rules, (4, 0, k), (4, 0, k + 1))
  {
    hide ParseDecimal, IsDecimal;
    var rules := OptionalDecimalRule(value, total, fraction, AmountPath(field));
    Numbered(rules, 4, 0, AmountPlace(field));
  }

  lemma ExtraPlaces()
    ensures AmountPlace(DiscountAmountField) == 5 && AmountPlace(OriginalCurrencyAmountField) == 6
    ensures AmountPlace(ExchangeRateField) == 7
  {
  }

  lemma ExtrasOrdered(a: Amount)
    ensures var discount := OptionalDecimalRule(a.discountAmount, 20, 7, AmountPath(DiscountAmountField));
            var original :=
              OptionalDecimalRule(a.originalCurrencyAmount, 20, 7, AmountPath(OriginalCurrencyAmountField));
            var rate := OptionalDecimalRule(a.exchangeRate, 13, 5, AmountPath(ExchangeRateField));
            && RulesInOrder(discount) && Within(discount, (4, 0, 5), (4, 0, 6))
            && RulesInOrder(original) && Within(original, (4, 0, 6), (4, 0, 7))
            && RulesInOrder(rate) && Within(rate, (4, 0, 7), (4, 0, 8))
  {
    hide RulesInOrder, Within, OptionalDecimalRule, AmountPlace;
    ExtraPlaces();
    OptionalOrdered(a.discountAmount, 20, 7, DiscountAmountField);
    OptionalOrdered(a.originalCurrencyAmount, 20, 7, OriginalCurrencyAmountField);
    OptionalOrdered(a.exchangeRate, 13, 5, ExchangeRateField);
  }

  lemma AmountsOrdered(a: Amount)
    ensures RulesInOrder(AmountRules(a)) && Within(AmountRules(a), (4, 0, 0), (4, 0, 8))
  {
    hide RulesInOrder, Within, SumRules, OptionalDecimalRule, Place;
    var sums := SumRules(a);
    var discount := OptionalDecimalRule(a.discountAmount, 20, 7, AmountPath(DiscountAmountField));
    var original := OptionalDecimalRule(a.originalCurrencyAmount, 20, 7, AmountPath(OriginalCurrencyAmountField));
    var rate := OptionalDecimalRule(a.exchangeRate, 13, 5, AmountPath(ExchangeRateField));
    SumsOrdered(a);
    ExtrasOrdered(a);
    OrderConcat(sums, discount, (4, 0, 0), (4, 0, 5), (4, 0, 6));
    OrderConcat(sums + discount, original, (4, 0, 0), (4, 0, 6), (4, 0, 7));
    OrderConcat(sums + discount + original, rate, (4, 0, 0), (4, 0, 7), (4, 0, 8));
  }

  lemma SchemaOrdered(v: Invoice)
    ensures RulesInOrder(SchemaRules(v)) && Within(SchemaRules(v), (0, 0, 0), (5, 0, 0))
  {
    hide RulesInOrder, Within, RoleRules, MainTextRules, DetailRules, AmountRules;
    var seller, buyer := RoleRules(v.main.seller, true), RoleRules(v.main.buyer, false);
    var texts, details, amounts := MainTextRules(v.main), DetailRules(v.details), AmountRules(v.amount);
    RolesOrdered(v.main.seller, true);
    RolesOrdered(v.main.buyer, false);
    MainTextsOrdered(v.main);
    DetailsOrdered(v.details);
    AmountsOrdered(v.amount);
    Widened(seller, (0, 0, 0), (0, 0, 8), (0, 0, 0), (1, 0, 0));
    Widened(buyer, (1, 0, 0), (1, 0, 8), (1, 0, 0), (2, 0, 0));
    Widened(texts, (2, 0, 0), (2, 0, 10), (2, 0, 0), (3, 0, 0));
    Widened(details, (3, 0, 0), (3, |v.details| + 1, 0), (3, 0, 0), (4, 0, 0));
    Widened(amounts, (4, 0, 0), (4, 0, 8), (4, 0, 0), (5, 0, 0));
    OrderConcat(seller, buyer, (0, 0, 0), (1, 0, 0), (2, 0, 0));
    OrderConcat(seller + buyer, texts, (0, 0, 0), (2, 0, 0), (3, 0, 0));
    OrderConcat(seller + buyer + texts, details, (0, 0, 0), (3, 0, 0), (4, 0, 0));
    OrderConcat(seller + buyer + texts + details, amounts, (0, 0, 0), (4, 0, 0), (5, 0, 0));
  }

  lemma PartiesOrdered(v: Invoice)
    ensures RulesInOrder(PartyRules(v)) && Within(PartyRules(v), (5, 0, 0), (5, 0, 5))
  {
    hide IsCalendarDate, IsPlaceholder, IsConsumer;
    Numbered(PartyRules(v), 5, 0, 0);
    hide RulesInOrder, Within;
  }

  lemma PrintsOrdered(v: Invoice)
    ensures RulesInOrder(PrintRules(v)) && Within(PrintRules(v), (5, 0, 5), (5, 0, 8))
  {
    hide IsZeroRated;
    Numbered(PrintRules(v), 5, 0, 5);
    hide RulesInOrder, Within;
  }

  lemma {:induction false} UsageDetailsOrdered(items: seq<ProductItem>)
    ensures RulesInOrder(DetailSemanticRules(items))
    ensures Within(DetailSemanticRules(items), (6, 0, 0), (6, |items| + 1, 0))
  {
    hide RulesInOrder, Within, ItemSemanticRules;
    if items == [] {
      NothingOrdered((6, 0, 0), (6, 1, 0));
    } else {
      var last := |items| - 1;
      UsageDetailsOrdered(items[..last]);
      ItemUsageOrdered(items[last], |items|);
      OrderConcat(DetailSemanticRules(items[..last]), ItemSemanticRules(items[last], |items|), (6, 0, 0),
                  (6, |items|, 0), (6, |items| + 1, 0));
    }
  }

  lemma ItemUsageOrdered(p: ProductItem, number: nat)
    ensures RulesInOrder(ItemSemanticRules(p, number))
    ensures Within(ItemSemanticRules(p, number), (6, number, 0), (6, number + 1, 0))
  {
    hide Decimal.Render;
    Numbered(ItemSemanticRules(p, number), 6, number, 0);
    hide RulesInOrder, Within;
    Widened(ItemSemanticRules(p, number), (6, number, 0), (6, number, 2), (6, number, 0), (6, number + 1, 0));
  }

  lemma UsageOrdered(v: Invoice)
    ensures RulesInOrder(SemanticRules(v)) && Within(SemanticRules(v), (5, 0, 0), (7, 0, 0))
  {
    hide RulesInOrder, Within, PartyRules, PrintRules, DetailSemanticRules;
    PartiesOrdered(v);
    PrintsOrdered(v);
    UsageDetailsOrdered(v.details);
    OrderConcat(PartyRules(v), PrintRules(v), (5, 0, 0), (5, 0, 5), (5, 0, 8));
    Widened(PartyRules(v) + PrintRules(v), (5, 0, 0), (5, 0, 8), (5, 0, 0), (6, 0, 0));
    Widened(DetailSemanticRules(v.details), (6, 0, 0), (6, |v.details| + 1, 0), (6, 0, 0), (7, 0, 0));
    OrderConcat(PartyRules(v) + PrintRules(v), DetailSemanticRules(v.details), (5, 0, 0), (6, 0, 0), (7, 0, 0));
  }

  lemma {:induction false} BrokenInOrder(rules: seq<Rule>)
    requires RulesInOrder(rules)
    ensures InOrder(Broken(rules))
  {
    hide Place, Earlier;
    if rules != [] {
      var tail := Broken(rules[1..]);
      assert forall i :: 0 <= i < |rules[1..]| ==> rules[1..][i] == rules[i + 1];
      BrokenInOrder(rules[1..]);
      forall k | 0 <= k < |tail|
        ensures Earlier(Place(rules[0].issue), Place(tail[k]))
      {
        BrokenExactly(rules[1..], tail[k]);
        assert tail[k] in tail;
        var i :| 0 <= i < |rules[1..]| && rules[1..][i] == Rule(tail[k], false);
        assert rules[i + 1].issue == tail[k];
      }
    }
  }

  // ---------------------------------------------------------------- main result

  /**
    The report of both layers holds exactly the issues that are true of the invoice, each at
    its path and under its code, and each in its place.
   */
  lemma ReportedExactly(v: Invoice)
    ensures var issues := Broken(SchemaRules(v) + SemanticRules(v));
            && (forall e :: e in issues <==> SchemaFault(v, e) || UsageFault(v, e)) && InOrder(issues)
  {
    hide SchemaRules, SemanticRules, SchemaFault, UsageFault, RulesInOrder, Within, InOrder;
    var rules := SchemaRules(v) + SemanticRules(v);
    forall e
      ensures e in Broken(rules) <==> SchemaFault(v, e) || UsageFault(v, e)
    {
      BrokenExactly(rules, e);
      SchemaIssues(v, e);
      UsageIssues(v, e);
      InConcat(SchemaRules(v), SemanticRules(v), e);
    }
    SchemaOrdered(v);
    UsageOrdered(v);
    OrderConcat(SchemaRules(v), SemanticRules(v), (0, 0, 0), (5, 0, 0), (7, 0, 0));
    BrokenInOrder(rules);
  }
}
