/** An invoice that passes validation whatever its seller is called. */
module SampleInvoice {
  import opened Wrappers
  import opened Primitives
  import opened F0401Document
  import opened F0401Validation
  import Decimal

  function Midnight(): MigTime {
    var time := "00:00:00";
    assert time[0..2] == "00" && time[3..5] == "00" && time[6..8] == "00";
    time
  }

  function NewYear(): MigDate {
    var date := "20250101";
    assert date[4..6] == "01" && date[6..8] == "01";
    date
  }

  function Party(name: string): RoleDescription {
    RoleDescription("00000000", name, Some("Taipei"), None, None, None, None, None, None)
  }

  function Named(name: string): Invoice {
    var main := Main("AA00000000", NewYear(), Midnight(), Party(name), Party("Buyer"), None, None, None, None, None,
                     GeneralTax, None, NotDonated, None, None, None, PrintPaper, None, None, None, None, None, None);
    var item := ProductItem("Item", "0", None, "0", Taxable, "0", "1", None, None);
    var amount := Amount("0", "0", "0", Taxable, FivePercent, "0", "0", None, None, None, None);
    Invoice(main, [item], amount)
  }

  lemma ZeroFits(total: nat, fraction: nat, nonNegative: bool)
    requires total >= 1
    ensures Fits("0", total, fraction, nonNegative)
  {
    var d := DecimalText(false, "0", None);
    assert d.Render() == "0";
    assert IsFitting(d, "0", total, fraction, nonNegative);
  }

  lemma NamedMeetsSchema(name: string)
    requires 1 <= |name| <= 60
    ensures SchemaMet(Named(name))
  {
    hide Fits;
    ZeroFits(20, 7, false);
    ZeroFits(20, 7, true);
    ZeroFits(20, 0, true);
  }

  lemma NewYearIsCalendarDate()
    ensures IsCalendarDate(NewYear())
  {
    assert NewYear()[4..6] == "01" && NewYear()[6..8] == "01";
  }

  lemma OneIsRendered()
    ensures Decimal.Render(1) == "1"
  {
  }

  lemma NamedMeetsSemantics(name: string)
    ensures SemanticsMet(Named(name))
  {
    hide Decimal.Render, IsCalendarDate, NewYear, Midnight;
    NewYearIsCalendarDate();
    OneIsRendered();
    assert "00000000"[0] == '0' && |"00000000"| == 8;
  }

  /** Any name of one to sixty characters passes both layers of validation. */
  lemma NamedIsValid(name: string)
    requires 1 <= |name| <= 60
    ensures Constructed(Named(name)) && SchemaMet(Named(name)) && SemanticsMet(Named(name))
    ensures Named(name).main.seller.name == name
  {
    hide SchemaMet, SemanticsMet;
    NamedMeetsSchema(name);
    NamedMeetsSemantics(name);
  }
}
