/**
  The two validation layers of F0401.  A rule is a place in the document, a code and
  whether the invoice meets it; a report lists the broken rules in checking order.
 */
module F0401Validation {
  import opened Wrappers
  import opened Primitives
  import opened F0401Document
  import Decimal

  datatype Field =
    | InvoiceDateField | NameField | AddressField | PersonInChargeField | TelephoneNumberField | FacsimileNumberField
    | EmailAddressField | CustomerNumberField | RoleRemarkField | MainRemarkField | CategoryField | RelateNumberField
    | GroupMarkField | DonateMarkField | PrintMarkField | CarrierTypeField | CarrierId1Field | CarrierId2Field
    | RandomNumberField | ZeroTaxRateReasonField | Reserved1Field | Reserved2Field | DescriptionField | UnitField
    | SequenceNumberField | RemarkField | QuantityField | UnitPriceField | ItemAmountField | TaxTypeField
    | SalesAmountField | FreeTaxSalesAmountField | ZeroTaxSalesAmountField | TaxAmountField | TotalAmountField
    | DiscountAmountField | OriginalCurrencyAmountField | ExchangeRateField

  /** Items are numbered from one, as in `ProductItem[1]`. */
  datatype Path =
    | SellerPath(field: Field)
    | BuyerPath(field: Field)
    | MainPath(field: Field)
    | ItemPath(number: nat, field: Field)
    | AmountPath(field: Field)

  datatype Code =
    | StringLength | DecimalConstraint | RandomNumberFormat
    | DateNotGregorian | SellerAddressRequired | B2cBuyerNameInvalid | B2cRandomNumberRequired
    | B2bRandomNumberForbidden | PrintWithCarrier | PrintDonationConflict | ZeroRateReasonRequired
    | ProductMixedTaxForbidden | SequenceNotContiguous

  datatype Issue = Issue(path: Path, code: Code)

  datatype Rule = Rule(issue: Issue, met: bool)

  function Broken(rules: seq<Rule>): seq<Issue> {
    if rules == [] then [] else (if rules[0].met then [] else [rules[0].issue]) + Broken(rules[1..])
  }

  predicate AllMet(rules: seq<Rule>) { forall r :: r in rules ==> r.met }

  lemma {:induction false} BrokenConcat(a: seq<Rule>, b: seq<Rule>)
    ensures Broken(a + b) == Broken(a) + Broken(b)
  {
    if a == [] {
      assert a + b == b;
    } else {
      assert (a + b)[1..] == a[1..] + b;
      BrokenConcat(a[1..], b);
    }
  }

  /** An issue is reported exactly when a rule that carries it is broken. */
  lemma {:induction false} BrokenExactly(rules: seq<Rule>, e: Issue)
    ensures e in Broken(rules) <==> Rule(e, false) in rules
  {
    if rules != [] {
      BrokenExactly(rules[1..], e);
      assert rules == [rules[0]] + rules[1..];
    }
  }

  lemma {:induction false} NothingBroken(rules: seq<Rule>)
    ensures Broken(rules) == [] <==> AllMet(rules)
  {
    if rules != [] {
      NothingBroken(rules[1..]);
      assert rules == [rules[0]] + rules[1..];
    }
  }

  // ---------------------------------------------------------------- the rules

  function StringRule(ok: bool, path: Path): Rule { Rule(Issue(path, StringLength), ok) }

  function RequiredMax(value: string, max: nat, path: Path): Rule { StringRule(1 <= |value| <= max, path) }

  function Max(value: Option<string>, max: nat, path: Path): Rule {
    StringRule(value.Some? ==> |value.value| <= max, path)
  }

  function Exact(value: Option<string>, length: nat, path: Path): Rule {
    StringRule(value.Some? ==> |value.value| == length, path)
  }

  function DecimalRule(value: MigDecimal, maxTotal: nat, maxFraction: nat, nonNegative: bool, path: Path): Rule {
    Rule(Issue(path, DecimalConstraint), ParseDecimal(value, maxTotal, maxFraction, nonNegative).Success?)
  }

  function OptionalDecimalRule(value: Option<MigDecimal>, maxTotal: nat, maxFraction: nat, path: Path): seq<Rule> {
    if value.Some? then [DecimalRule(value.value, maxTotal, maxFraction, true, path)] else []
  }

  predicate IsFourDigits(s: string) { |s| == 4 && Decimal.AllDigits(s) }

  function RolePath(seller: bool, field: Field): Path { if seller then SellerPath(field) else BuyerPath(field) }

  function RoleRules(r: RoleDescription, seller: bool): seq<Rule> {
    [ RequiredMax(r.name, 60, RolePath(seller, NameField)),
      Max(r.address, 100, RolePath(seller, AddressField)),
      Max(r.personInCharge, 30, RolePath(seller, PersonInChargeField)),
      Max(r.telephoneNumber, 26, RolePath(seller, TelephoneNumberField)),
      Max(r.facsimileNumber, 26, RolePath(seller, FacsimileNumberField)),
      Max(r.emailAddress, 400, RolePath(seller, EmailAddressField)),
      Max(r.customerNumber, 20, RolePath(seller, CustomerNumberField)),
      Exact(r.roleRemark, 40, RolePath(seller, RoleRemarkField)) ]
  }

  function MainTextRules(m: Main): seq<Rule> {
    [ Max(m.mainRemark, 200, MainPath(MainRemarkField)),
      Max(m.category, 2, MainPath(CategoryField)),
      Max(m.relateNumber, 20, MainPath(RelateNumberField)),
      Exact(m.groupMark, 1, MainPath(GroupMarkField)),
      Max(m.carrierType, 6, MainPath(CarrierTypeField)),
      Max(m.carrierId1, 400, MainPath(CarrierId1Field)),
      Max(m.carrierId2, 400, MainPath(CarrierId2Field)),
      Max(m.reserved1, 20, MainPath(Reserved1Field)),
      Max(m.reserved2, 100, MainPath(Reserved2Field)),
      Rule(Issue(MainPath(RandomNumberField), RandomNumberFormat),
           m.randomNumber.Some? ==> IsFourDigits(m.randomNumber.value)) ]
  }

  function ItemRules(p: ProductItem, number: nat): seq<Rule> {
    [ RequiredMax(p.description, 500, ItemPath(number, DescriptionField)),
      Max(p.unit, 6, ItemPath(number, UnitField)),
      RequiredMax(p.sequenceNumber, 4, ItemPath(number, SequenceNumberField)),
      Max(p.remark, 120, ItemPath(number, RemarkField)),
      Max(p.relateNumber, 50, ItemPath(number, RelateNumberField)),
      DecimalRule(p.quantity, 20, 7, false, ItemPath(number, QuantityField)),
      DecimalRule(p.unitPrice, 20, 7, false, ItemPath(number, UnitPriceField)),
      DecimalRule(p.amount, 20, 7, false, ItemPath(number, ItemAmountField)) ]
  }

  /** The rules of the first items, in order. */
  function DetailRules(items: seq<ProductItem>): seq<Rule> {
    if items == [] then []
    else
      var last := |items| - 1;
      DetailRules(items[..last]) + ItemRules(items[last], |items|)
  }

  function SumRules(a: Amount): seq<Rule> {
    [ DecimalRule(a.salesAmount, 20, 7, true, AmountPath(SalesAmountField)),
      DecimalRule(a.freeTaxSalesAmount, 20, 7, true, AmountPath(FreeTaxSalesAmountField)),
      DecimalRule(a.zeroTaxSalesAmount, 20, 7, true, AmountPath(ZeroTaxSalesAmountField)),
      DecimalRule(a.taxAmount, 20, 0, true, AmountPath(TaxAmountField)),
      DecimalRule(a.totalAmount, 20, 7, true, AmountPath(TotalAmountField)) ]
  }

  function AmountRules(a: Amount): seq<Rule> {
    SumRules(a) + OptionalDecimalRule(a.discountAmount, 20, 7, AmountPath(DiscountAmountField))
    + OptionalDecimalRule(a.originalCurrencyAmount, 20, 7, AmountPath(OriginalCurrencyAmountField))
    + OptionalDecimalRule(a.exchangeRate, 13, 5, AmountPath(ExchangeRateField))
  }

  function SchemaRules(v: Invoice): seq<Rule> {
    RoleRules(v.main.seller, true) + RoleRules(v.main.buyer, false) + MainTextRules(v.main)
    + DetailRules(v.details) + AmountRules(v.amount)
  }

  predicate IsConsumer(v: Invoice) { v.main.buyer.identifier == B2C_BUYER }

  predicate IsPlaceholder(name: string) { name in {"0", "00", "000", "0000"} }

  predicate IsZeroRated(v: Invoice) {
    v.amount.taxType == ZeroRated || exists i :: 0 <= i < |v.details| && v.details[i].taxType == ZeroRated
  }

  function PartyRules(v: Invoice): seq<Rule> {
    [ Rule(Issue(MainPath(InvoiceDateField), DateNotGregorian), IsCalendarDate(v.main.invoiceDate)),
      Rule(Issue(SellerPath(AddressField), SellerAddressRequired),
           v.main.seller.address.Some? && v.main.seller.address.value != ""),
      Rule(Issue(BuyerPath(NameField), B2cBuyerNameInvalid), IsConsumer(v) ==> !IsPlaceholder(v.main.buyer.name)),
      Rule(Issue(MainPath(RandomNumberField), B2cRandomNumberRequired), IsConsumer(v) ==> v.main.randomNumber.Some?),
      Rule(Issue(MainPath(RandomNumberField), B2bRandomNumberForbidden), v.main.randomNumber.Some? ==> IsConsumer(v)) ]
  }

  function PrintRules(v: Invoice): seq<Rule> {
    [ Rule(Issue(MainPath(PrintMarkField), PrintWithCarrier),
           v.main.printMark.PrintPaper? ==>
             v.main.carrierType.None? && v.main.carrierId1.None? && v.main.carrierId2.None?),
      Rule(Issue(MainPath(DonateMarkField), PrintDonationConflict),
           v.main.printMark.PrintPaper? ==> v.main.donateMark.NotDonated?),
      Rule(Issue(MainPath(ZeroTaxRateReasonField), ZeroRateReasonRequired),
           IsZeroRated(v) ==> v.main.zeroTaxRateReason.Some?) ]
  }

  function ItemSemanticRules(p: ProductItem, number: nat): seq<Rule> {
    [ Rule(Issue(ItemPath(number, TaxTypeField), ProductMixedTaxForbidden), !p.taxType.Mixed?),
      Rule(Issue(ItemPath(number, SequenceNumberField), SequenceNotContiguous),
           p.sequenceNumber == Decimal.Render(number)) ]
  }

  function DetailSemanticRules(items: seq<ProductItem>): seq<Rule> {
    if items == [] then []
    else
      var last := |items| - 1;
      DetailSemanticRules(items[..last]) + ItemSemanticRules(items[last], |items|)
  }

  function SemanticRules(v: Invoice): seq<Rule> {
    PartyRules(v) + PrintRules(v) + DetailSemanticRules(v.details)
  }

  // ---------------------------------------------------------------- the validators

  class ValidationReport {
    var issues: seq<Issue>
    ghost var checked: seq<Rule>

    ghost predicate Valid()
      reads this
    {
      issues == Broken(checked)
    }

    constructor ()
      ensures Valid() && issues == [] && checked == []
    {
      issues, checked := [], [];
    }

    method PushIssue(path: Path, code: Code)
      modifies `issues
      ensures issues == old(issues) + [Issue(path, code)]
    {
      issues := issues + [Issue(path, code)];
    }

    /** Report the issue when the rule is broken. */
    method Check(broken: bool, path: Path, code: Code)
      requires Valid()
      modifies this
      ensures Valid() && checked == old(checked) + [Rule(Issue(path, code), !broken)]
    {
      BrokenConcat(checked, [Rule(Issue(path, code), !broken)]);
      checked := checked + [Rule(Issue(path, code), !broken)];
      if broken {
        PushIssue(path, code);
      }
    }

    method CheckRequiredMax(value: string, max: nat, path: Path)
      requires Valid()
      modifies this
      ensures Valid() && checked == old(checked) + [RequiredMax(value, max, path)]
    {
      Check(value == "" || |value| > max, path, StringLength);
    }

    method CheckMax(value: Option<string>, max: nat, path: Path)
      requires Valid()
      modifies this
      ensures Valid() && checked == old(checked) + [Max(value, max, path)]
    {
      Check(value.Some? && |value.value| > max, path, StringLength);
    }

    method CheckExact(value: Option<string>, length: nat, path: Path)
      requires Valid()
      modifies this
      ensures Valid() && checked == old(checked) + [Exact(value, length, path)]
    {
      Check(value.Some? && |value.value| != length, path, StringLength);
    }

    method CheckDecimal(value: MigDecimal, maxTotal: nat, maxFraction: nat, nonNegative: bool, path: Path)
      requires Valid()
      modifies this
      ensures Valid() && checked == old(checked) + [DecimalRule(value, maxTotal, maxFraction, nonNegative, path)]
    {
      Check(ParseDecimal(value, maxTotal, maxFraction, nonNegative).Failure?, path, DecimalConstraint);
    }

    method CheckOptionalDecimal(value: Option<MigDecimal>, maxTotal: nat, maxFraction: nat, path: Path)
      requires Valid()
      modifies this
      ensures Valid() && checked == old(checked) + OptionalDecimalRule(value, maxTotal, maxFraction, path)
    {
      if value.Some? {
        CheckDecimal(value.value, maxTotal, maxFraction, true, path);
      }
    }

    method ValidateRole(r: RoleDescription, seller: bool)
      requires Valid()
      modifies this
      ensures Valid() && checked == old(checked) + RoleRules(r, seller)
    {
      hide RequiredMax, Max, Exact, RolePath, Valid;
      CheckRequiredMax(r.name, 60, RolePath(seller, NameField));
      CheckMax(r.address, 100, RolePath(seller, AddressField));
      CheckMax(r.personInCharge, 30, RolePath(seller, PersonInChargeField));
      CheckMax(r.telephoneNumber, 26, RolePath(seller, TelephoneNumberField));
      CheckMax(r.facsimileNumber, 26, RolePath(seller, FacsimileNumberField));
      CheckMax(r.emailAddress, 400, RolePath(seller, EmailAddressField));
      CheckMax(r.customerNumber, 20, RolePath(seller, CustomerNumberField));
      CheckExact(r.roleRemark, 40, RolePath(seller, RoleRemarkField));
    }

    method ValidateMainTexts(m: Main)
      requires Valid()
      modifies this
      ensures Valid() && checked == old(checked) + MainTextRules(m)
    {
      hide Max, Exact, IsFourDigits, Valid;
      CheckMax(m.mainRemark, 200, MainPath(MainRemarkField));
      CheckMax(m.category, 2, MainPath(CategoryField));
      CheckMax(m.relateNumber, 20, MainPath(RelateNumberField));
      CheckExact(m.groupMark, 1, MainPath(GroupMarkField));
      ghost var first := MainTextRules(m)[..4];
      assert checked == old(checked) + first;
      CheckMax(m.carrierType, 6, MainPath(CarrierTypeField));
      CheckMax(m.carrierId1, 400, MainPath(CarrierId1Field));
      CheckMax(m.carrierId2, 400, MainPath(CarrierId2Field));
      CheckMax(m.reserved1, 20, MainPath(Reserved1Field));
      CheckMax(m.reserved2, 100, MainPath(Reserved2Field));
      var malformed := m.randomNumber.Some? && !IsFourDigits(m.randomNumber.value);
      Check(malformed, MainPath(RandomNumberField), RandomNumberFormat);
    }

    method ValidateItem(p: ProductItem, number: nat)
      requires Valid()
      modifies this
      ensures Valid() && checked == old(checked) + ItemRules(p, number)
    {
      hide RequiredMax, Max, DecimalRule, Valid;
      CheckRequiredMax(p.description, 500, ItemPath(number, DescriptionField));
      CheckMax(p.unit, 6, ItemPath(number, UnitField));
      CheckRequiredMax(p.sequenceNumber, 4, ItemPath(number, SequenceNumberField));
      CheckMax(p.remark, 120, ItemPath(number, RemarkField));
      CheckMax(p.relateNumber, 50, ItemPath(number, RelateNumberField));
      CheckDecimal(p.quantity, 20, 7, false, ItemPath(number, QuantityField));
      CheckDecimal(p.unitPrice, 20, 7, false, ItemPath(number, UnitPriceField));
      CheckDecimal(p.amount, 20, 7, false, ItemPath(number, ItemAmountField));
    }

    method ValidateDetails(details: seq<ProductItem>)
      requires Valid()
      modifies this
      ensures Valid() && checked == old(checked) + DetailRules(details)
    {
      hide ItemRules, Valid;
      for i := 0 to |details|
        invariant Valid() && checked == old(checked) + DetailRules(details[..i])
      {
        assert details[..i + 1][..i] == details[..i];
        ValidateItem(details[i], i + 1);
      }
      assert details[..|details|] == details;
    }

    method ValidateSums(a: Amount)
      requires Valid()
      modifies this
      ensures Valid() && checked == old(checked) + SumRules(a)
    {
      hide DecimalRule, Valid;
      CheckDecimal(a.salesAmount, 20, 7, true, AmountPath(SalesAmountField));
      CheckDecimal(a.freeTaxSalesAmount, 20, 7, true, AmountPath(FreeTaxSalesAmountField));
      CheckDecimal(a.zeroTaxSalesAmount, 20, 7, true, AmountPath(ZeroTaxSalesAmountField));
      CheckDecimal(a.taxAmount, 20, 0, true, AmountPath(TaxAmountField));
      CheckDecimal(a.totalAmount, 20, 7, true, AmountPath(TotalAmountField));
    }

    method ValidateAmount(a: Amount)
      requires Valid()
      modifies this
      ensures Valid() && checked == old(checked) + AmountRules(a)
    {
      hide SumRules, OptionalDecimalRule, Valid;
      ValidateSums(a);
      CheckOptionalDecimal(a.discountAmount, 20, 7, AmountPath(DiscountAmountField));
      CheckOptionalDecimal(a.originalCurrencyAmount, 20, 7, AmountPath(OriginalCurrencyAmountField));
      CheckOptionalDecimal(a.exchangeRate, 13, 5, AmountPath(ExchangeRateField));
    }

    method ValidateParties(v: Invoice)
      requires Valid()
      modifies this
      ensures Valid() && checked == old(checked) + PartyRules(v)
    {
      hide IsCalendarDate, IsPlaceholder, Valid;
      var main := v.main;
      Check(!IsCalendarDate(main.invoiceDate), MainPath(InvoiceDateField), DateNotGregorian);
      var addressMissing := main.seller.address.None? || main.seller.address.value == "";
      Check(addressMissing, SellerPath(AddressField), SellerAddressRequired);
      var consumer := IsConsumer(v);
      hide IsConsumer;
      Check(consumer && IsPlaceholder(main.buyer.name), BuyerPath(NameField), B2cBuyerNameInvalid);
      Check(main.randomNumber.None? && consumer, MainPath(RandomNumberField), B2cRandomNumberRequired);
      Check(main.randomNumber.Some? && !consumer, MainPath(RandomNumberField), B2bRandomNumberForbidden);
    }

    method ValidatePrinting(v: Invoice)
      requires Valid()
      modifies this
      ensures Valid() && checked == old(checked) + PrintRules(v)
    {
      hide IsZeroRated, Valid;
      var main := v.main;
      var printed := main.printMark.PrintPaper?;
      var carried := main.carrierType.Some? || main.carrierId1.Some? || main.carrierId2.Some?;
      Check(printed && carried, MainPath(PrintMarkField), PrintWithCarrier);
      Check(printed && main.donateMark.Donated?, MainPath(DonateMarkField), PrintDonationConflict);
      Check(IsZeroRated(v) && main.zeroTaxRateReason.None?, MainPath(ZeroTaxRateReasonField), ZeroRateReasonRequired);
    }

    method ValidateItemSemantics(p: ProductItem, number: nat)
      requires Valid()
      modifies this
      ensures Valid() && checked == old(checked) + ItemSemanticRules(p, number)
    {
      hide Valid;
      Check(p.taxType.Mixed?, ItemPath(number, TaxTypeField), ProductMixedTaxForbidden);
      Check(p.sequenceNumber != Decimal.Render(number), ItemPath(number, SequenceNumberField), SequenceNotContiguous);
    }

    method ValidateDetailSemantics(details: seq<ProductItem>)
      requires Valid()
      modifies this
      ensures Valid() && checked == old(checked) + DetailSemanticRules(details)
    {
      hide ItemSemanticRules, Valid;
      for i := 0 to |details|
        invariant Valid() && checked == old(checked) + DetailSemanticRules(details[..i])
      {
        assert details[..i + 1][..i] == details[..i];
        ValidateItemSemantics(details[i], i + 1);
      }
      assert details[..|details|] == details;
    }
  }

  method ValidateSchemaConstraints(v: Invoice) returns (report: ValidationReport)
    ensures fresh(report) && report.Valid() && report.checked == SchemaRules(v)
  {
    hide RoleRules, MainTextRules, DetailRules, AmountRules;
    report := new ValidationReport();
    report.ValidateRole(v.main.seller, true);
    report.ValidateRole(v.main.buyer, false);
    report.ValidateMainTexts(v.main);
    report.ValidateDetails(v.details);
    report.ValidateAmount(v.amount);
  }

  method ValidateSemantics(v: Invoice) returns (report: ValidationReport)
    ensures fresh(report) && report.Valid() && report.checked == SemanticRules(v)
  {
    hide PartyRules, PrintRules, DetailSemanticRules;
    report := new ValidationReport();
    report.ValidateParties(v);
    report.ValidatePrinting(v);
    report.ValidateDetailSemantics(v.details);
  }

  /** Both layers: the broken rules of the schema, then the broken rules of the usage notes. */
  method Validate(v: Invoice) returns (issues: seq<Issue>)
    ensures issues == Broken(SchemaRules(v) + SemanticRules(v))
    ensures issues == [] <==> SchemaMet(v) && SemanticsMet(v)
  {
    hide SchemaRules, SemanticRules, SchemaMet, SemanticsMet;
    var schema := ValidateSchemaConstraints(v);
    var semantics := ValidateSemantics(v);
    issues := schema.issues + semantics.issues;
    BrokenConcat(SchemaRules(v), SemanticRules(v));
    NothingBroken(SchemaRules(v));
    NothingBroken(SemanticRules(v));
    SchemaRulesExact(v);
    SemanticRulesExact(v);
  }

  // ---------------------------------------------------------------- the documented rules

  predicate AtMost(value: Option<string>, max: nat) { value.Some? ==> |value.value| <= max }

  /** The text of a number N / 10^k with at most `total` digits, `fraction` of them after the point. */
  ghost predicate Fits(value: string, total: nat, fraction: nat, nonNegative: bool) {
    exists d: DecimalText :: IsFitting(d, value, total, fraction, nonNegative)
  }

  ghost predicate IsFitting(d: DecimalText, value: string, total: nat, fraction: nat, nonNegative: bool) {
    && d.Valid() && d.Render() == value
    && |d.integer| + d.FractionDigits() <= total && d.FractionDigits() <= fraction
    && (nonNegative ==> !d.negative)
  }

  ghost predicate OptionFits(value: Option<string>, total: nat, fraction: nat) {
    value.Some? ==> Fits(value.value, total, fraction, true)
  }

  predicate RoleMet(r: RoleDescription) {
    && 1 <= |r.name| <= 60 && AtMost(r.address, 100) && AtMost(r.personInCharge, 30)
    && AtMost(r.telephoneNumber, 26) && AtMost(r.facsimileNumber, 26) && AtMost(r.emailAddress, 400)
    && AtMost(r.customerNumber, 20) && (r.roleRemark.Some? ==> |r.roleRemark.value| == 40)
  }

  predicate MainMet(m: Main) {
    && AtMost(m.mainRemark, 200) && AtMost(m.category, 2) && AtMost(m.relateNumber, 20)
    && (m.groupMark.Some? ==> |m.groupMark.value| == 1) && AtMost(m.carrierType, 6)
    && AtMost(m.carrierId1, 400) && AtMost(m.carrierId2, 400) && AtMost(m.reserved1, 20) && AtMost(m.reserved2, 100)
    && (m.randomNumber.Some? ==> IsFourDigits(m.randomNumber.value))
  }

  ghost predicate ItemMet(p: ProductItem) {
    && 1 <= |p.description| <= 500 && 1 <= |p.sequenceNumber| <= 4
    && AtMost(p.unit, 6) && AtMost(p.remark, 120) && AtMost(p.relateNumber, 50)
    && Fits(p.quantity, 20, 7, false) && Fits(p.unitPrice, 20, 7, false) && Fits(p.amount, 20, 7, false)
  }

  ghost predicate AmountMet(a: Amount) {
    && Fits(a.salesAmount, 20, 7, true) && Fits(a.freeTaxSalesAmount, 20, 7, true)
    && Fits(a.zeroTaxSalesAmount, 20, 7, true) && Fits(a.taxAmount, 20, 0, true) && Fits(a.totalAmount, 20, 7, true)
    && OptionFits(a.discountAmount, 20, 7) && OptionFits(a.originalCurrencyAmount, 20, 7)
    && OptionFits(a.exchangeRate, 13, 5)
  }

  ghost predicate SchemaMet(v: Invoice) {
    && RoleMet(v.main.seller) && RoleMet(v.main.buyer) && MainMet(v.main) && AmountMet(v.amount)
    && ItemsMet(v.details)
  }

  ghost predicate ItemsMet(items: seq<ProductItem>) { forall i :: 0 <= i < |items| ==> ItemMet(items[i]) }

  /** Items are numbered from one in their own order. */
  predicate Contiguous(items: seq<ProductItem>) {
    forall i :: 0 <= i < |items| ==> items[i].sequenceNumber == Decimal.Render(i + 1)
  }

  predicate NoMixedItem(items: seq<ProductItem>) { forall i :: 0 <= i < |items| ==> !items[i].taxType.Mixed? }

  predicate SemanticsMet(v: Invoice) {
    && IsCalendarDate(v.main.invoiceDate)
    && v.main.seller.address.Some? && v.main.seller.address.value != ""
    && (IsConsumer(v) <==> v.main.randomNumber.Some?)
    && (IsConsumer(v) ==> !IsPlaceholder(v.main.buyer.name))
    && (v.main.printMark.PrintPaper? ==>
          && v.main.carrierType.None? && v.main.carrierId1.None? && v.main.carrierId2.None?
          && v.main.donateMark.NotDonated?)
    && (IsZeroRated(v) ==> v.main.zeroTaxRateReason.Some?)
    && Contiguous(v.details) && NoMixedItem(v.details)
  }

  lemma DecimalRuleExact(value: MigDecimal, total: nat, fraction: nat, nonNegative: bool, path: Path)
    ensures DecimalRule(value, total, fraction, nonNegative, path).met <==> Fits(value, total, fraction, nonNegative)
  {
    if ParseDecimal(value, total, fraction, nonNegative).Success? {
      var d := ParsedDecimal(value, total, fraction, nonNegative);
      assert IsFitting(d, value, total, fraction, nonNegative);
    }
    if Fits(value, total, fraction, nonNegative) {
      var d: DecimalText :| IsFitting(d, value, total, fraction, nonNegative);
      ParseAccepts(d, total, fraction, nonNegative);
    }
  }

  lemma AllMetConcat(a: seq<Rule>, b: seq<Rule>)
    ensures AllMet(a + b) <==> AllMet(a) && AllMet(b)
  {
    assert forall r :: r in a + b <==> r in a || r in b;
  }

  lemma RoleRulesExact(r: RoleDescription, seller: bool)
    ensures AllMet(RoleRules(r, seller)) <==> RoleMet(r)
  {
    hide AllMet;
    EightRules(RoleRules(r, seller));
  }

  lemma MainTextRulesExact(m: Main)
    ensures AllMet(MainTextRules(m)) <==> MainMet(m)
  {
    hide IsFourDigits, AllMet;
    TenRules(MainTextRules(m));
  }

  lemma EightRules(rules: seq<Rule>)
    requires |rules| == 8
    ensures AllMet(rules) <==>
            (rules[0].met && rules[1].met && rules[2].met && rules[3].met && rules[4].met && rules[5].met
             && rules[6].met && rules[7].met)
  {
    assert forall i :: 0 <= i < |rules| ==> rules[i] in rules;
  }

  lemma TenRules(rules: seq<Rule>)
    requires |rules| == 10
    ensures AllMet(rules) <==>
            (rules[0].met && rules[1].met && rules[2].met && rules[3].met && rules[4].met && rules[5].met
             && rules[6].met && rules[7].met && rules[8].met && rules[9].met)
  {
    assert forall i :: 0 <= i < |rules| ==> rules[i] in rules;
  }

  lemma ItemRulesExact(p: ProductItem, number: nat)
    ensures AllMet(ItemRules(p, number)) <==> ItemMet(p)
  {
    hide Fits, DecimalRule, AllMet;
    EightRules(ItemRules(p, number));
    DecimalRuleExact(p.quantity, 20, 7, false, ItemPath(number, QuantityField));
    DecimalRuleExact(p.unitPrice, 20, 7, false, ItemPath(number, UnitPriceField));
    DecimalRuleExact(p.amount, 20, 7, false, ItemPath(number, ItemAmountField));
  }

  lemma LastItemMet(items: seq<ProductItem>)
    requires items != []
    ensures ItemsMet(items) <==> ItemsMet(items[..|items| - 1]) && ItemMet(items[|items| - 1])
  {
    hide ItemMet;
    assert ItemsMet(items) ==> forall i :: 0 <= i < |items| - 1 ==> ItemMet(items[i]);
  }

  lemma {:induction false} DetailRulesExact(items: seq<ProductItem>)
    ensures AllMet(DetailRules(items)) <==> ItemsMet(items)
  {
    if items != [] {
      var last := |items| - 1;
      DetailRulesExact(items[..last]);
      ItemRulesExact(items[last], |items|);
      LastItemMet(items);
      hide ItemRules, ItemMet, ItemsMet, AllMet;
      AllMetConcat(DetailRules(items[..last]), ItemRules(items[last], |items|));
    }
  }

  lemma SumRulesExact(a: Amount)
    ensures AllMet(SumRules(a)) <==>
            (Fits(a.salesAmount, 20, 7, true) && Fits(a.freeTaxSalesAmount, 20, 7, true)
             && Fits(a.zeroTaxSalesAmount, 20, 7, true) && Fits(a.taxAmount, 20, 0, true)
             && Fits(a.totalAmount, 20, 7, true))
  {
    var rules := SumRules(a);
    assert forall i :: 0 <= i < |rules| ==> rules[i] in rules;
    DecimalRuleExact(a.salesAmount, 20, 7, true, AmountPath(SalesAmountField));
    DecimalRuleExact(a.freeTaxSalesAmount, 20, 7, true, AmountPath(FreeTaxSalesAmountField));
    DecimalRuleExact(a.zeroTaxSalesAmount, 20, 7, true, AmountPath(ZeroTaxSalesAmountField));
    DecimalRuleExact(a.taxAmount, 20, 0, true, AmountPath(TaxAmountField));
    DecimalRuleExact(a.totalAmount, 20, 7, true, AmountPath(TotalAmountField));
    hide Fits, DecimalRule;
    assert AllMet(rules) <==> (rules[0].met && rules[1].met && rules[2].met && rules[3].met && rules[4].met);
  }

  lemma OptionalRuleExact(value: Option<MigDecimal>, total: nat, fraction: nat, path: Path)
    ensures AllMet(OptionalDecimalRule(value, total, fraction, path)) <==> OptionFits(value, total, fraction)
  {
    if value.Some? {
      DecimalRuleExact(value.value, total, fraction, true, path);
      var rule := DecimalRule(value.value, total, fraction, true, path);
      assert rule in [rule];
    }
  }

  lemma AmountRulesExact(a: Amount)
    ensures AllMet(AmountRules(a)) <==> AmountMet(a)
  {
    var sums := SumRules(a);
    var discount := OptionalDecimalRule(a.discountAmount, 20, 7, AmountPath(DiscountAmountField));
    var original := OptionalDecimalRule(a.originalCurrencyAmount, 20, 7, AmountPath(OriginalCurrencyAmountField));
    var rate := OptionalDecimalRule(a.exchangeRate, 13, 5, AmountPath(ExchangeRateField));
    SumRulesExact(a);
    OptionalRuleExact(a.discountAmount, 20, 7, AmountPath(DiscountAmountField));
    OptionalRuleExact(a.originalCurrencyAmount, 20, 7, AmountPath(OriginalCurrencyAmountField));
    OptionalRuleExact(a.exchangeRate, 13, 5, AmountPath(ExchangeRateField));
    hide SumRules, OptionalDecimalRule, Fits, OptionFits, AllMet;
    AllMetConcat(sums, discount);
    AllMetConcat(sums + discount, original);
    AllMetConcat(sums + discount + original, rate);
  }

  lemma SchemaRulesExact(v: Invoice)
    ensures AllMet(SchemaRules(v)) <==> SchemaMet(v)
  {
    RoleRulesExact(v.main.seller, true);
    RoleRulesExact(v.main.buyer, false);
    MainTextRulesExact(v.main);
    DetailRulesExact(v.details);
    AmountRulesExact(v.amount);
    hide RoleRules, MainTextRules, DetailRules, AmountRules, RoleMet, MainMet, ItemMet, AmountMet, AllMet;
    var roles := RoleRules(v.main.seller, true) + RoleRules(v.main.buyer, false);
    AllMetConcat(RoleRules(v.main.seller, true), RoleRules(v.main.buyer, false));
    AllMetConcat(roles, MainTextRules(v.main));
    AllMetConcat(roles + MainTextRules(v.main), DetailRules(v.details));
    AllMetConcat(roles + MainTextRules(v.main) + DetailRules(v.details), AmountRules(v.amount));
  }

  lemma ItemSemanticRulesExact(p: ProductItem, number: nat)
    ensures AllMet(ItemSemanticRules(p, number)) <==>
            !p.taxType.Mixed? && p.sequenceNumber == Decimal.Render(number)
  {
    var rules := ItemSemanticRules(p, number);
    assert rules[0] in rules && rules[1] in rules;
    assert AllMet(rules) <==> rules[0].met && rules[1].met;
  }

  lemma LastItemSemantics(items: seq<ProductItem>, last: nat)
    requires |items| == last + 1
    ensures NoMixedItem(items) <==> NoMixedItem(items[..last]) && !items[last].taxType.Mixed?
    ensures Contiguous(items) <==>
            Contiguous(items[..last]) && items[last].sequenceNumber == Decimal.Render(last + 1)
  {
    hide Decimal.Render;
    var init := items[..last];
    assert forall i :: 0 <= i < last ==> init[i] == items[i];
    assert NoMixedItem(items) ==> NoMixedItem(init);
    assert Contiguous(items) ==> Contiguous(init) && items[last].sequenceNumber == Decimal.Render(last + 1);
    if Contiguous(init) && items[last].sequenceNumber == Decimal.Render(last + 1) {
      forall i | 0 <= i < |items|
        ensures items[i].sequenceNumber == Decimal.Render(i + 1)
      {
        assert i < last ==> init[i].sequenceNumber == Decimal.Render(i + 1);
      }
    }
  }

  lemma {:induction false} DetailSemanticRulesExact(items: seq<ProductItem>)
    ensures AllMet(DetailSemanticRules(items)) <==> NoMixedItem(items) && Contiguous(items)
  {
    if items != [] {
      var last := |items| - 1;
      DetailSemanticRulesExact(items[..last]);
      ItemSemanticRulesExact(items[last], |items|);
      LastItemSemantics(items, last);
      hide AllMet, ItemSemanticRules, Contiguous, NoMixedItem;
      AllMetConcat(DetailSemanticRules(items[..last]), ItemSemanticRules(items[last], |items|));
    }
  }

  lemma SemanticRulesExact(v: Invoice)
    ensures AllMet(SemanticRules(v)) <==> SemanticsMet(v)
  {
    hide IsCalendarDate, IsZeroRated, IsPlaceholder, IsConsumer, DetailSemanticRules, Contiguous, NoMixedItem;
    DetailSemanticRulesExact(v.details);
    var party, paper := PartyRules(v), PrintRules(v);
    assert forall i :: 0 <= i < |party| ==> party[i] in party;
    assert forall i :: 0 <= i < |paper| ==> paper[i] in paper;
    assert AllMet(party) <==> (party[0].met && party[1].met && party[2].met && party[3].met && party[4].met);
    assert AllMet(paper) <==> (paper[0].met && paper[1].met && paper[2].met);
    AllMetConcat(party, paper);
    AllMetConcat(party + paper, DetailSemanticRules(v.details));
    hide AllMet;
  }

  // ---------------------------------------------------------------- sequence numbers

  /** A number below 10,000 is rendered with one through four digits. */
  lemma RenderLength(n: nat)
    requires n <= MAX_PRODUCT_ITEMS
    ensures 1 <= |Decimal.Render(n)| <= 4
  {
    assert |Decimal.Render(n / 1000)| == 1;
    if n >= 1000 {
      assert n / 10 / 10 / 10 == n / 1000;
      assert |Decimal.Render(n / 10 / 10)| == 2;
      assert |Decimal.Render(n / 10)| == 3;
    }
  }

  /**
    On an invoice that was constructed, contiguous sequence numbers are pairwise distinct
    and never break the four-character facet.
   */
  lemma ContiguousNumbers(v: Invoice)
    requires Constructed(v) && Contiguous(v.details)
    ensures forall i :: 0 <= i < |v.details| ==> 1 <= |v.details[i].sequenceNumber| <= 4
    ensures forall i, j :: 0 <= i < j < |v.details| ==> v.details[i].sequenceNumber != v.details[j].sequenceNumber
  {
    forall i | 0 <= i < |v.details|
      ensures 1 <= |v.details[i].sequenceNumber| <= 4
    {
      RenderLength(i + 1);
    }
    forall i, j | 0 <= i < j < |v.details|
      ensures v.details[i].sequenceNumber != v.details[j].sequenceNumber
    {
      Decimal.RenderValue(i + 1);
      Decimal.RenderValue(j + 1);
    }
  }

  /** The bound of `F0401Invoice::new` is needed: the 10,000th contiguous number is too long. */
  lemma TenThousandthNumberIsTooLong()
    ensures |Decimal.Render(MAX_PRODUCT_ITEMS + 1)| == 5
  {
    assert Decimal.Render(10_000 / 10 / 10 / 10 / 10) == "1";
    assert |Decimal.Render(10_000 / 10 / 10 / 10)| == 2;
    assert |Decimal.Render(10_000 / 10 / 10)| == 3;
    assert |Decimal.Render(10_000 / 10)| == 4;
  }

  /** A decimal that meets its facets denotes N / 10^k with k at most `fraction`, |N| below 10^`total`. */
  lemma FittingValue(value: string, total: nat, fraction: nat, nonNegative: bool) returns (d: DecimalText)
    requires Fits(value, total, fraction, nonNegative)
    ensures d.Valid() && d.Render() == value && d.FractionDigits() <= fraction
    ensures -(Power10(total) as int) < d.Coefficient() < Power10(total)
    ensures nonNegative ==> d.Coefficient() >= 0
  {
    var e: DecimalText :| IsFitting(e, value, total, fraction, nonNegative);
    ParseAccepts(e, total, fraction, nonNegative);
    d := ParsedDecimal(value, total, fraction, nonNegative);
  }
}
