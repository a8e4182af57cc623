/**
  Invoice XML under a conforming XML 1.0 processor, which refuses characters outside the Char
  production (section 2.2) and normalises line ends before it parses (section 2.11).
 */
module ConformingXml {
  import opened Wrappers
  import opened F0401Document
  import opened F0401Xml
  import opened F0401Text
  import opened LineEnds
  import opened TextRewriting
  import opened NormalizedInvoices
  import F0401Validation
  import SampleInvoice

  /** Production [2] of XML 1.0; characters are Unicode scalar values, so surrogates are out already. */
  predicate IsXmlChar(c: char) {
    c == '\t' || c == '\n' || c == '\r' || (' ' <= c && c != '\U{FFFE}' && c != '\U{FFFF}')
  }

  predicate IsNotXmlChar(c: char) { !IsXmlChar(c) }

  function ParseConforming(s: string): Option<(Invoice, string)> {
    if Clear(s, IsNotXmlChar) then ParseInvoice(Normalized(s)) else None
  }

  lemma NotXmlCharIsForeign()
    ensures Foreign(IsNotXmlChar)
  {
  }

  /**
    A conforming processor refuses the text exactly when a text field holds a character
    outside the Char production; otherwise it reads the invoice with its line ends normalised.
   */
  lemma ConformingReads(v: Invoice)
    ensures ParseConforming(XmlText(v)) ==
            if TextClear(v, IsNotXmlChar) then Some((WithLineFeeds(v), "")) else None
  {
    hide Foreign, Clear, TextClear, XmlText, Normalized, ParseInvoice, WithLineFeeds;
    NotXmlCharIsForeign();
    XmlClearExactly(v, IsNotXmlChar);
    XmlNormalized(v);
    ParseInvoiceInverts(WithLineFeeds(v), "");
    assert XmlText(WithLineFeeds(v)) + "" == XmlText(WithLineFeeds(v));
  }

  /**
    It reads the invoice back unchanged exactly when, besides, no text field holds a carriage
    return.
   */
  lemma ConformingReadsExactly(v: Invoice)
    ensures ParseConforming(XmlText(v)) == Some((v, "")) <==>
            TextClear(v, IsNotXmlChar) && TextClear(v, IsCarriageReturn)
  {
    hide TextClear, XmlText, ParseConforming, WithLineFeeds;
    ConformingReads(v);
    UnchangedExactly(v);
  }

  // ---------------------------------------------------------------- an invoice that is refused

  /** U+0001 is not a character of XML. */
  const CONTROL: string := "\U{0001}"

  lemma ControlIsNotClear(v: Invoice)
    requires v.main.seller.name == CONTROL
    ensures !TextClear(v, IsNotXmlChar)
  {
    assert CONTROL[0] in CONTROL && IsNotXmlChar(CONTROL[0]);
    assert !Clear(v.main.seller.name, IsNotXmlChar);
    assert !RoleClear(v.main.seller, IsNotXmlChar);
  }

  /**
    Validation passes an invoice whose seller is named by a control character; a conforming
    processor refuses its XML.
   */
  lemma ControlCharacterIsRefused()
    ensures var v := SampleInvoice.Named(CONTROL);
            && Constructed(v) && F0401Validation.SchemaMet(v) && F0401Validation.SemanticsMet(v)
            && ParseConforming(XmlText(v)) == None
  {
    hide F0401Validation.SchemaMet, F0401Validation.SemanticsMet, SampleInvoice.Named;
    hide TextClear, XmlText, ParseConforming, WithLineFeeds;
    SampleInvoice.NamedIsValid(CONTROL);
    ControlIsNotClear(SampleInvoice.Named(CONTROL));
    ConformingReads(SampleInvoice.Named(CONTROL));
  }
}
