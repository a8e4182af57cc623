/** Invoices as lines of the envelope, and what carriage returns in their text fields do there. */
module InvoiceLines {
  import opened Wrappers
  import opened XmlTree
  import opened F0401Document
  import opened F0401Xml
  import opened F0401Text
  import opened LineEnds
  import opened Envelope
  import opened NormalizedInvoices
  import F0401Printer
  import F0401Validation
  import SampleInvoice

  /** Invoices, each followed by a line feed. */
  function ReadInvoices(s: string): Option<seq<Invoice>>
    decreases |s|
  {
    if s == "" then Some([])
    else
      var (v, after) :- ParseInvoice(s);
      var rest :- After("\n", after);
      var others :- ReadInvoices(rest);
      Some([v] + others)
  }

  function Each<T, U>(s: seq<T>, f: T -> U): (r: seq<U>)
    ensures |r| == |s| && forall i :: 0 <= i < |r| ==> r[i] == f(s[i])
  {
    if s == [] then [] else [f(s[0])] + Each(s[1..], f)
  }

  function XmlTexts(invoices: seq<Invoice>): seq<string> { Each(invoices, XmlText) }

  /** No text field of any invoice holds a carriage return. */
  predicate NoCarriageReturn(invoices: seq<Invoice>) {
    forall i :: 0 <= i < |invoices| ==> TextClear(invoices[i], IsCarriageReturn)
  }

  /** The invoices with their line ends normalised. */
  function LineFeedsOnly(invoices: seq<Invoice>): seq<Invoice> { Each(invoices, WithLineFeeds) }

  /** Normalising changes none of the invoices exactly when none holds a carriage return. */
  lemma LineFeedsOnlyExactly(invoices: seq<Invoice>)
    ensures LineFeedsOnly(invoices) == invoices <==> NoCarriageReturn(invoices)
  {
    hide TextClear, WithLineFeeds;
    forall i | 0 <= i < |invoices|
      ensures WithLineFeeds(invoices[i]) == invoices[i] <==> TextClear(invoices[i], IsCarriageReturn)
    {
      UnchangedExactly(invoices[i]);
    }
  }

  /** The XML of an invoice holds a carriage return exactly when a text field does. */
  lemma XmlCarriageReturn(v: Invoice)
    ensures '\r' in XmlText(v) <==> !TextClear(v, IsCarriageReturn)
  {
    hide XmlText, TextClear;
    CarriageReturnIsForeign();
    XmlClearExactly(v, IsCarriageReturn);
  }

  /** In the envelope an invoice is one line, or more if it holds line feeds, of its normalised XML. */
  lemma AppendedInvoice(v: Invoice)
    ensures Appended(XmlText(v)) == XmlText(WithLineFeeds(v)) + "\n"
  {
    hide XmlText, Normalized, SplitTerminator, WithLineFeeds;
    XmlNormalized(v);
    NormalizedIsClear(XmlText(v));
    F0401Printer.XmlTextEnds(WithLineFeeds(v));
    AppendedPlain(XmlText(WithLineFeeds(v)));
    NormalizedFixed(XmlText(WithLineFeeds(v)));
  }

  /** One invoice, its line feed, and the rest. */
  lemma OneInvoiceLine(v: Invoice, rest: string)
    ensures var s := Appended(XmlText(v)) + rest;
            && s != "" && ParseInvoice(s) == Some((WithLineFeeds(v), "\n" + rest))
            && After("\n", "\n" + rest) == Some(rest)
  {
    hide XmlText, Appended, ParseInvoice, WithLineFeeds;
    AppendedInvoice(v);
    ParseInvoiceInverts(WithLineFeeds(v), "\n" + rest);
    Assoc(XmlText(WithLineFeeds(v)), "\n", rest);
    AfterInverts("\n", rest);
  }

  /** The middle section always reads as the invoices with their line ends normalised. */
  lemma {:induction false} MiddleReads(invoices: seq<Invoice>)
    ensures ReadInvoices(Middle(XmlTexts(invoices))) == Some(LineFeedsOnly(invoices))
  {
    hide XmlText, ParseInvoice, Appended, WithLineFeeds;
    if invoices == [] {
      assert Middle([]) == "";
    } else {
      var texts, read := XmlTexts(invoices), LineFeedsOnly(invoices);
      assert texts[0] == XmlText(invoices[0]) && texts[1..] == XmlTexts(invoices[1..]);
      OneInvoiceLine(invoices[0], Middle(texts[1..]));
      MiddleReads(invoices[1..]);
      assert read == [WithLineFeeds(invoices[0])] + LineFeedsOnly(invoices[1..]);
    }
  }

  /** The middle section reads as the invoices exactly when no text field holds a carriage return. */
  lemma MiddleReadsExactly(invoices: seq<Invoice>)
    ensures ReadInvoices(Middle(XmlTexts(invoices))) == Some(invoices) <==> NoCarriageReturn(invoices)
  {
    hide NoCarriageReturn, XmlTexts, Middle, LineFeedsOnly;
    MiddleReads(invoices);
    LineFeedsOnlyExactly(invoices);
  }

  // ---------------------------------------------------------------- an invoice that does not come back

  /** An invoice whose seller has a carriage return in its name. */
  function SplitInvoice(): Invoice { SampleInvoice.Named("A\rB") }

  /** It passes validation like any other invoice, and the envelope gives back another name. */
  lemma SplitInvoiceIsLost()
    ensures F0401Document.Constructed(SplitInvoice())
    ensures F0401Validation.SchemaMet(SplitInvoice()) && F0401Validation.SemanticsMet(SplitInvoice())
    ensures var read := ReadInvoices(Middle(XmlTexts([SplitInvoice()])));
            && read != Some([SplitInvoice()])
            && read.Some? && |read.value| == 1 && read.value[0].main.seller.name == "A\nB"
  {
    hide ReadInvoices, Middle, XmlTexts, WithLineFeeds, SampleInvoice.Named;
    hide F0401Validation.SchemaMet, F0401Validation.SemanticsMet;
    SampleInvoice.NamedIsValid("A\rB");
    SplitName();
    SplitNameRead();
    MiddleReads([SplitInvoice()]);
    assert LineFeedsOnly([SplitInvoice()]) == [WithLineFeeds(SplitInvoice())];
  }

  lemma SplitName()
    ensures Normalized("A\rB") == "A\nB" && SplitInvoice().main.seller.name == "A\rB"
  {
    assert "A\rB"[1..] == "\rB" && "\rB"[1..] == "B" && "B"[1..] == "";
    NormalizedStep("A\rB");
    NormalizedStep("\rB");
    NormalizedStep("B");
    NormalizedEmpty("");
    hide Normalized;
    assert Normalized("B") == "B";
  }

  lemma SplitNameRead()
    ensures WithLineFeeds(SplitInvoice()).main.seller.name == Normalized(SplitInvoice().main.seller.name)
  {
    hide Normalized, SampleInvoice.Named;
  }
}
