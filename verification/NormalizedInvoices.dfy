/**
  Line ends of invoice XML: normalising the text normalises the text fields of the invoice
  and nothing else.
 */
module NormalizedInvoices {
  import opened Xml
  import opened F0401Document
  import opened F0401Xml
  import opened F0401Text
  import opened LineEnds
  import opened TextRewriting

  lemma {:induction false} NormalizedConcat(a: string, b: string)
    requires Separate(a, b)
    ensures Normalized(a + b) == Normalized(a) + Normalized(b)
    decreases |a|
  {
    hide Normalized;
    if a == "" {
      assert a + b == b;
      NormalizedEmpty("");
    } else {
      var s := a + b;
      var n := if a[0] == '\r' && |a| >= 2 && a[1] == '\n' then 2 else 1;
      NormalizedStep(s);
      NormalizedStep(a);
      assert s[n..] == a[n..] + b;
      NormalizedConcat(a[n..], b);
    }
  }

  lemma EscapeOfLineEnd(c: char)
    ensures c == '\r' || c == '\n' ==> EscapeChar(c) == [c]
    ensures c != '\r' ==> '\r' !in EscapeChar(c)
    ensures c != '\n' ==> EscapeChar(c) != "" && EscapeChar(c)[0] != '\n'
  {
  }

  lemma {:induction false} NormalizedEscape(s: string)
    ensures Normalized(Escape(s)) == Escape(Normalized(s))
    decreases |s|
  {
    hide Normalized, EscapeChar;
    if s == "" {
      NormalizedEmpty("");
    } else {
      var c, rest := s[0], s[1..];
      EscapeOfLineEnd(c);
      NormalizedStep(s);
      if c != '\r' {
        NormalizedEscape(rest);
        NormalizedFixed(EscapeChar(c));
        NormalizedConcat(EscapeChar(c), Escape(rest));
        assert ([c] + Normalized(rest))[1..] == Normalized(rest);
      } else {
        LineEndEscaped(s);
      }
    }
  }

  /** At a carriage return, which takes a line feed behind it along. */
  lemma {:induction false} LineEndEscaped(s: string)
    requires s != "" && s[0] == '\r'
    ensures Normalized(Escape(s)) == Escape(Normalized(s))
    decreases |s|, 0
  {
    hide Normalized, EscapeChar;
    var n := if |s| >= 2 && s[1] == '\n' then 2 else 1;
    EscapeOfLineEnd('\r');
    EscapeOfLineEnd('\n');
    if |s| >= 2 {
      EscapeOfLineEnd(s[1]);
    }
    NormalizedEscape(s[n..]);
    NormalizedStep(s);
    NormalizedStep(Escape(s));
    EscapedTail(s, n);
    assert ("\n" + Normalized(s[n..]))[1..] == Normalized(s[n..]);
  }

  lemma EscapedTail(s: string, n: nat)
    requires s != "" && s[0] == '\r' && n == if |s| >= 2 && s[1] == '\n' then 2 else 1
    ensures |Escape(s)| >= n && Escape(s)[0] == '\r' && Escape(s)[n..] == Escape(s[n..])
    ensures n == 2 <==> |Escape(s)| >= 2 && Escape(s)[1] == '\n'
  {
    hide EscapeChar;
    EscapeOfLineEnd('\r');
    EscapeOfLineEnd('\n');
    var rest := Escape(s[1..]);
    assert Escape(s) == ['\r'] + rest && Escape(s)[1..] == rest;
    if |s| >= 2 {
      EscapeOfLineEnd(s[1]);
      assert s[1..][1..] == s[2..];
      assert rest == EscapeChar(s[1]) + Escape(s[2..]);
      hide Escape;
      assert Escape(s)[1] == rest[0];
      if n == 2 {
        assert Escape(s)[2..] == rest[1..];
      }
    }
  }

  lemma NormalizedIsTextual()
    ensures Textual(Normalized)
  {
    hide Normalized, Escape;
    forall s | Printable(s)
      ensures Normalized(s) == s
    {
      assert '\r' !in s;
      NormalizedFixed(s);
    }
    forall s
      ensures Normalized(Escape(s)) == Escape(Normalized(s)) && (Normalized(s) == "" ==> s == "")
    {
      NormalizedEscape(s);
      NormalizedEmpty(s);
    }
    forall a, b | Separate(a, b)
      ensures Normalized(a + b) == Normalized(a) + Normalized(b)
    {
      NormalizedConcat(a, b);
    }
  }

  /** The invoice with its line ends normalised. */
  function WithLineFeeds(v: Invoice): Invoice { MapInvoice(v, Normalized) }

  lemma XmlNormalized(v: Invoice)
    ensures Normalized(XmlText(v)) == XmlText(WithLineFeeds(v))
  {
    hide Normalized, XmlText, Textual, MapInvoice;
    NormalizedIsTextual();
    XmlMapped(v, Normalized);
  }

  predicate IsCarriageReturn(c: char) { c == '\r' }

  lemma CarriageReturnIsForeign()
    ensures Foreign(IsCarriageReturn)
  {
  }

  lemma NormalizedIsClear(s: string)
    ensures Clear(Normalized(s), IsCarriageReturn)
    ensures Normalized(s) == s <==> Clear(s, IsCarriageReturn)
  {
    ReplaceCrRemoves(ReplaceCrLf(s));
    if Clear(s, IsCarriageReturn) {
      assert IsCarriageReturn('\r');
      NormalizedFixed(s);
    }
  }

  /** The invoice stays as it is exactly when no text field holds a carriage return. */
  lemma UnchangedExactly(v: Invoice)
    ensures WithLineFeeds(v) == v <==> TextClear(v, IsCarriageReturn)
  {
    hide Normalized, XmlText, Textual, MapInvoice, TextClear, Foreign, Clear;
    NormalizedIsTextual();
    CarriageReturnIsForeign();
    XmlUnchangedExactly(v, Normalized);
    NormalizedIsClear(XmlText(v));
    XmlClearExactly(v, IsCarriageReturn);
  }
}
